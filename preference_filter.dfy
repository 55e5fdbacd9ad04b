/** `filter_restaurants_by_preferences`: the label-to-flag table, the
    preference predicate (any chosen cuisine, every dietary need, the wifi
    requirement) and the lookup of the user's preferences and city. */
module PreferenceFilter {
  import opened Wrappers
  import opened PyValues
  import opened Text
  import opened Lists
  import opened Store
  import opened DataSanitizer

  /** `FIELD_MAPPING`: preference labels and the restaurant flag each one
      stands for. */
  const FieldMapping: map<string, string> := map[
    "British" := "is_british",
    "Mediterranean" := "is_mediterranean",
    "French" := "is_french",
    "Asian" := "is_asian",
    "FastFood" := "is_fast_food",
    "Cafe" := "is_cafe",
    "Seafood" := "is_seafood",
    "Italian" := "is_italian",
    "Indian" := "is_indian",
    "Steakhouse" := "is_steakhouse",
    "Mexican" := "is_mexican",
    "MiddleEastern" := "is_middle_eastern",
    "Vegan" := "is_vegan_options",
    "Vegetarian" := "is_vegetarian_friendly",
    "GlutenFree" := "is_gluten_free_options",
    "Wifi" := "is_free_wifi"
  ]

  /** `binary_float_columns`: the fields, in this order, that make up the
      vector a user profile and a restaurant are compared on. */
  const BinaryFloatColumns: seq<string> := [
    "food_rating_norm", "service_rating_norm", "value_rating_norm", "atmosphere_rating_norm",
    "is_price_$", "is_price_$$", "is_price_$$$", "is_price_$$$$",
    "is_british", "is_asian", "is_italian", "is_indian", "is_mediterranean", "is_fast_food",
    "is_seafood", "is_cafe", "is_french", "is_steakhouse", "is_mexican", "is_middle_eastern",
    "is_vegan_options", "is_gluten_free_options", "is_vegetarian_friendly", "is_free_wifi"
  ]

  /** Every flag a label maps to is one of the compared fields. */
  lemma MappedFlagsAreColumns()
    ensures forall l :: l in FieldMapping ==> FieldMapping[l] in BinaryFloatColumns
  {
  }

  /** The one flag a preference item stands for, if any: `FIELD_MAPPING.get(item)`
      when truthy. Only a str can be a key of the table. */
  predicate MapsTo(v: Value, f: string) {
    v.Str? && v.s in FieldMapping && FieldMapping[v.s] == f
  }

  function LabelField(v: Value): (r: set<string>)
    ensures forall f :: f in r <==> MapsTo(v, f)
    ensures |r| <= 1
    ensures r <= set l | l in FieldMapping :: FieldMapping[l]
  {
    if v.Str? && v.s in FieldMapping then {FieldMapping[v.s]} else {}
  }

  /** `{FIELD_MAPPING.get(x) for x in items if FIELD_MAPPING.get(x)}`: the
      flags of the mapped labels; unmapped labels are dropped, and hashing
      a list or dict raises TypeError. */
  function MappedFields(items: seq<Value>): (r: Result<set<string>, Failure>)
    ensures r.Ok? <==> forall i :: 0 <= i < |items| ==> Hashable(items[i])
    ensures r.Err? ==> r.error == TypeError
    ensures r.Ok? ==> forall f :: f in r.value <==> exists i :: 0 <= i < |items| && MapsTo(items[i], f)
  {
    if |items| == 0 then Ok({})
    else if !Hashable(items[0]) then Err(TypeError)
    else
      assert forall i :: 0 < i < |items| ==> items[i] == items[1..][i - 1];
      match MappedFields(items[1..])
      case Err(e) => Err(e)
      case Ok(fs) => Ok(LabelField(items[0]) + fs)
  }

  /** The flags a user's preferences require. */
  datatype Criteria = Criteria(cuisineFields: set<string>, dietaryFields: set<string>, wifiFields: set<string>)

  /** `restaurant.get(field, 0) == 1`: a missing flag reads as 0. */
  predicate FlagSet(r: Document, f: string) {
    EqualsNumber(GetOr(r, f, Int(0)), 1.0)
  }

  /** Under Python's `==`, a flag is set exactly when it holds 1, 1.0 or
      True; a missing flag, a string "1" and NaN are not set. */
  lemma FlagSetValues(r: Document, f: string)
    ensures FlagSet(r, f) <==> Get(r, f) in {Some(Int(1)), Some(Num(Finite(1.0))), Some(Bool(true))}
  {
  }

  /** The condition of the comprehension at lines 145-153: at least one
      cuisine flag, every dietary flag and the wifi flag, if any. */
  predicate Passes(c: Criteria, r: Document) {
    (exists f :: f in c.cuisineFields && FlagSet(r, f))
    && (forall f :: f in c.dietaryFields ==> FlagSet(r, f))
    && (forall f :: f in c.wifiFields ==> FlagSet(r, f))
  }

  /** A restaurant passes exactly when one of the cuisine flags and all the
      dietary and wifi flags are set: more requirements keep fewer
      restaurants, and a cuisine must be chosen. */
  lemma PassesMonotone(c: Criteria, c': Criteria, r: Document)
    requires c'.cuisineFields <= c.cuisineFields
    requires c.dietaryFields <= c'.dietaryFields && c.wifiFields <= c'.wifiFields
    ensures Passes(c', r) ==> Passes(c, r)
    ensures c.cuisineFields == {} ==> !Passes(c, r)
  {
  }

  /** The filtered restaurants: those of the city that pass, in the order
      the collection lists them. */
  function FilterRestaurants(rs: seq<Document>, c: Criteria): (out: seq<Document>)
    ensures Subseq(out, rs)
    ensures forall i :: 0 <= i < |out| ==> out[i] in rs && Passes(c, out[i])
    ensures forall i :: 0 <= i < |rs| && Passes(c, rs[i]) ==> rs[i] in out
    ensures forall d :: multiset(out)[d] == if Passes(c, d) then multiset(rs)[d] else 0
  {
    FilterMultiset(rs, r => Passes(c, r));
    Filter(rs, r => Passes(c, r))
  }

  /** With no mapped cuisine, `any` over nothing is false and nothing
      passes, whatever the dietary and wifi needs. */
  lemma NoCuisineNoRestaurant(rs: seq<Document>, c: Criteria)
    requires c.cuisineFields == {}
    ensures FilterRestaurants(rs, c) == []
  {
    FilterNone(rs, r => Passes(c, r));
  }

  /** With no dietary or wifi need, a restaurant passes exactly when one of
      the chosen cuisine flags is set. */
  lemma CuisineOnly(c: Criteria, r: Document)
    requires c.dietaryFields == {} && c.wifiFields == {}
    ensures Passes(c, r) <==> exists f :: f in c.cuisineFields && FlagSet(r, f)
  {
  }

  /** A one-item preference list. */
  lemma MappedSingle(v: Value)
    ensures MappedFields([v]) == if Hashable(v) then Ok(LabelField(v)) else Err(TypeError)
  {
    assert [v][1..] == [];
    assert MappedFields([v][1..]) == Ok({});
    assert LabelField(v) + {} == LabelField(v);
  }

  /** The labels "Fast Food", "Middle Eastern" and "Vegetarian Friendly",
      which the onboarding screen sends, are not in the table: preferences
      holding only those impose nothing, and a cuisine list of only
      "Fast Food" and "Middle Eastern" lets no restaurant through. */
  lemma UiLabelsUnmapped()
    ensures MappedFields([Str("Fast Food"), Str("Middle Eastern")]) == Ok({})
    ensures MappedFields([Str("Vegetarian Friendly")]) == Ok({})
    ensures MappedFields([Str("FastFood")]) == Ok({"is_fast_food"})
  {
    UiLabelsNotKeys();
    assert [Str("Fast Food"), Str("Middle Eastern")][1..] == [Str("Middle Eastern")];
    MappedSingle(Str("Middle Eastern"));
    MappedSingle(Str("Vegetarian Friendly"));
    MappedSingle(Str("FastFood"));
    assert FieldMapping["FastFood"] == "is_fast_food";
  }

  lemma UiLabelsNotKeys()
    ensures "Fast Food" !in FieldMapping && "Middle Eastern" !in FieldMapping
    ensures "Vegetarian Friendly" !in FieldMapping
  {
    assert forall l :: l in FieldMapping ==> |l| != 9 && |l| != 14 && |l| != 19;
  }

  /** The wifi value as line 141 reads it: `FIELD_MAPPING.get(wifi)`. A
      str label maps to its flag or to nothing, any other hashable value to
      nothing, and a list (which the preference form stores) cannot be
      hashed. */
  function WifiFieldsAsWritten(v: Value): (r: Result<set<string>, Failure>)
    ensures r.Ok? <==> Hashable(v)
    ensures r.Ok? ==> r.value == LabelField(v)
  {
    if Hashable(v) then Ok(LabelField(v)) else Err(TypeError)
  }

  /** The wifi value read as the preference form writes it: a list of
      labels, of which every mapped one is required; any other value is
      read as line 141 reads it. */
  function WifiFields(v: Value): (r: Result<set<string>, Failure>)
    ensures v.List? ==> r == MappedFields(v.items)
    ensures !v.List? ==> r == WifiFieldsAsWritten(v)
  {
    if v.List? then MappedFields(v.items) else WifiFieldsAsWritten(v)
  }

  /** What the two readings do with the values the preference form writes:
      the lookup of line 141 fails on both, the list reading requires the
      wifi flag exactly when "Wifi" was stored. */
  lemma WifiReadings()
    ensures WifiFieldsAsWritten(List([Str("Wifi")])) == Err(TypeError)
    ensures WifiFieldsAsWritten(List([])) == Err(TypeError)
    ensures WifiFields(List([Str("Wifi")])) == Ok({"is_free_wifi"})
    ensures WifiFields(List([])) == Ok({})
  {
    MappedSingle(Str("Wifi"));
    assert FieldMapping["Wifi"] == "is_free_wifi";
  }

  /** The two readings agree on every value line 141 can hash. */
  lemma WifiReadingsAgree(v: Value)
    requires Hashable(v)
    ensures WifiFields(v) == WifiFieldsAsWritten(v)
  {
  }

  /** Lines 134-141: the three preference lists, each defaulting to an
      empty list, turned into flags. `wifi` reads the wifi value. */
  function ReadCriteriaWith(prefs: Document, wifi: Value -> Result<set<string>, Failure>): (r: Result<Criteria, Failure>)
    ensures r.Ok? ==>
              && Iterate(GetOr(prefs, "cuisine_preferences", List([]))).Some?
              && MappedFields(Iterate(GetOr(prefs, "cuisine_preferences", List([]))).value) == Ok(r.value.cuisineFields)
              && Iterate(GetOr(prefs, "dietary_preferences", List([]))).Some?
              && MappedFields(Iterate(GetOr(prefs, "dietary_preferences", List([]))).value) == Ok(r.value.dietaryFields)
              && wifi(GetOr(prefs, "wifi", List([]))) == Ok(r.value.wifiFields)
    ensures Iterate(GetOr(prefs, "cuisine_preferences", List([]))).None? ==> r == Err(TypeError)
  {
    match Iterate(GetOr(prefs, "cuisine_preferences", List([])))
    case None => Err(TypeError)
    case Some(cs) =>
      match MappedFields(cs)
      case Err(e) => Err(e)
      case Ok(cf) =>
        match Iterate(GetOr(prefs, "dietary_preferences", List([])))
        case None => Err(TypeError)
        case Some(ds) =>
          match MappedFields(ds)
          case Err(e) => Err(e)
          case Ok(df) =>
            match wifi(GetOr(prefs, "wifi", List([])))
            case Err(e) => Err(e)
            case Ok(wf) => Ok(Criteria(cf, df, wf))
  }

  /** Line 123: `find_one({"_id": ObjectId(user_id)})` in the preferences
      collection. An id `ObjectId` refuses raises; a generated id finds
      nothing, like an unknown one. */
  function UserPreferences(userId: Value, db: Db): (r: Result<Document, Failure>)
    ensures ObjectIdOf(userId).BadId? ==> r == Err(IdFailure(userId))
    ensures ObjectIdOf(userId).FreshId? ==> r == Err(ValueError("User preferences not found."))
    ensures r.Ok? ==> ObjectIdOf(userId).IdHex? && r.value in Collection(db, "preferences")
                      && Get(r.value, "_id") == Some(Oid(ObjectIdOf(userId).hex))
  {
    match ObjectIdOf(userId)
    case BadId => Err(IdFailure(userId))
    case FreshId => Err(ValueError("User preferences not found."))
    case IdHex(id) =>
      FirstMatchFirst(Collection(db, "preferences"), "_id", Oid(id));
      match FindOne(Collection(db, "preferences"), "_id", Oid(id))
      case None => Err(ValueError("User preferences not found."))
      case Some(prefs) => Ok(prefs)
  }

  /** Lines 127-132: the restaurants of the preferences' city. A missing or
      empty city is a ValueError; a city without a collection makes the
      `find` call on None raise. */
  function CityRestaurants(prefs: Document, db: Db): (r: Result<seq<Document>, Failure>)
    ensures r.Ok? <==> exists c :: c in CityCollections && GetOr(prefs, "city", Null) == Str(c)
    ensures r.Ok? ==> r.value == Collection(db, CityCollections[GetOr(prefs, "city", Null).s])
    ensures !Truthy(GetOr(prefs, "city", Null)) ==> r == Err(ValueError("City is not specified in user preferences."))
  {
    var city := GetOr(prefs, "city", Null);
    if !Truthy(city) then Err(ValueError("City is not specified in user preferences."))
    else if !Hashable(city) then Err(TypeError)
    else if !city.Str? || city.s !in CityCollections then Err(AttributeError)
    else Ok(Collection(db, CityCollections[city.s]))
  }

  /** Every document carries an ObjectId `_id`. */
  predicate StoredDocs(docs: seq<Document>) {
    forall i :: 0 <= i < |docs| ==> Get(docs[i], "_id").Some? && Get(docs[i], "_id").value.Oid?
  }

  lemma FilterKeepsStored(rs: seq<Document>, c: Criteria)
    requires StoredDocs(rs)
    ensures StoredDocs(FilterRestaurants(rs, c))
  {
    var kept := FilterRestaurants(rs, c);
    forall i | 0 <= i < |kept| ensures Get(kept[i], "_id").Some? && Get(kept[i], "_id").value.Oid? {
      var j :| 0 <= j < |rs| && rs[j] == kept[i];
    }
  }

  /** Lines 155-157: each id turned into its string, then the whole list
      sanitized. */
  function CleanUp(rs: seq<Document>): (out: seq<Document>)
    requires StoredDocs(rs)
    ensures |out| == |rs|
    ensures forall i :: 0 <= i < |rs| ==> Keys(out[i]) == Keys(rs[i]) && Clean(Dict(out[i]))
    ensures forall i :: 0 <= i < |rs| ==> Get(out[i], "_id") == Some(Str(Get(rs[i], "_id").value.hex))
    ensures forall i, k :: 0 <= i < |rs| && k != "_id" ==>
              Get(out[i], k) == if Get(rs[i], k).Some? then Some(Sanitize(Get(rs[i], k).value)) else None
  {
    seq(|rs|, i requires 0 <= i < |rs| => CleanOne(rs[i]))
  }

  function CleanOne(d: Document): (r: Document)
    requires Get(d, "_id").Some? && Get(d, "_id").value.Oid?
    ensures Keys(r) == Keys(d) && Clean(Dict(r))
    ensures Get(r, "_id") == Some(Str(Get(d, "_id").value.hex))
    ensures forall k :: k != "_id" ==> Get(r, k) == if Get(d, k).Some? then Some(Sanitize(Get(d, k).value)) else None
  {
    var h := Get(d, "_id").value.hex;
    var d' := Set(d, "_id", Str(h));
    SetKeys(d, "_id", Str(h));
    SanitizeGet(d', "_id");
    assert |Lower(h)| == 24;
    assert forall k :: k != "_id" ==> Get(Sanitize(Dict(d')).entries, k) == if Get(d, k).Some? then Some(Sanitize(Get(d, k).value)) else None by {
      forall k | k != "_id" {
        SanitizeGet(d', k);
      }
    }
    Sanitize(Dict(d')).entries
  }

  /** Lines 123-157 with a given reading of the wifi value: the user's
      preferences, the city's restaurants, the filter, and the clean-up of
      the survivors. */
  function FilterForUserWith(userId: Value, db: Db, wifi: Value -> Result<set<string>, Failure>): (r: Result<seq<Document>, Failure>)
    requires forall c :: c in CityCollections ==> StoredDocs(Collection(db, CityCollections[c]))
    ensures r.Ok? <==> UserPreferences(userId, db).Ok?
                       && CityRestaurants(UserPreferences(userId, db).value, db).Ok?
                       && ReadCriteriaWith(UserPreferences(userId, db).value, wifi).Ok?
    ensures r.Ok? ==>
              var rs := CityRestaurants(UserPreferences(userId, db).value, db).value;
              var c := ReadCriteriaWith(UserPreferences(userId, db).value, wifi).value;
              StoredDocs(FilterRestaurants(rs, c)) && r.value == CleanUp(FilterRestaurants(rs, c))
    ensures UserPreferences(userId, db).Err? ==> r == Err(UserPreferences(userId, db).error)
  {
    match UserPreferences(userId, db)
    case Err(e) => Err(e)
    case Ok(prefs) =>
      match CityRestaurants(prefs, db)
      case Err(e) => Err(e)
      case Ok(rs) =>
        match ReadCriteriaWith(prefs, wifi)
        case Err(e) => Err(e)
        case Ok(c) =>
          FilterKeepsStored(rs, c);
          Ok(CleanUp(FilterRestaurants(rs, c)))
  }

  /** `filter_restaurants_by_preferences` as written: it can succeed only
      on preferences whose wifi value is hashable, so a missing wifi value
      (read as `[]`) or a stored list makes it raise TypeError. */
  function FilterForUserAsWritten(userId: Value, db: Db): (r: Result<seq<Document>, Failure>)
    requires forall c :: c in CityCollections ==> StoredDocs(Collection(db, CityCollections[c]))
    ensures r.Ok? ==> UserPreferences(userId, db).Ok?
                      && Hashable(GetOr(UserPreferences(userId, db).value, "wifi", List([])))
    ensures (&& UserPreferences(userId, db).Ok? && CityRestaurants(UserPreferences(userId, db).value, db).Ok?
             && ReadCriteriaWith(UserPreferences(userId, db).value, WifiFields).Ok?
             && GetOr(UserPreferences(userId, db).value, "wifi", List([])).List?) ==> r == Err(TypeError)
  {
    FilterForUserWith(userId, db, WifiFieldsAsWritten)
  }

  /** `filter_restaurants_by_preferences` with the wifi list read as a list
      of labels. It gives what the code as written gives whenever the wifi
      value can be hashed, and differs only where the code raises. */
  function FilterForUser(userId: Value, db: Db): (r: Result<seq<Document>, Failure>)
    requires forall c :: c in CityCollections ==> StoredDocs(Collection(db, CityCollections[c]))
    ensures UserPreferences(userId, db).Ok? && Hashable(GetOr(UserPreferences(userId, db).value, "wifi", List([])))
            ==> r == FilterForUserAsWritten(userId, db)
    ensures UserPreferences(userId, db).Err? ==> r == FilterForUserAsWritten(userId, db)
    ensures FilterForUserAsWritten(userId, db).Ok? ==> r == FilterForUserAsWritten(userId, db)
  {
    FilterForUserWith(userId, db, WifiFields)
  }
}
