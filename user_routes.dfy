/** The two request handlers of the user routes: `submit_preferences`
    builds and stores the preference document, `submit_selection` checks
    its input, looks up the user's city and builds the profile. */
module UserRoutes {
  import opened Wrappers
  import opened PyValues
  import opened Text
  import opened Lists
  import opened Store
  import opened DataSanitizer
  import opened UserService
  import opened PreferenceFilter

  /** A JSON reply: an error with its status and message, or a 200. */
  datatype Reply = Error(status: int, message: string) | Success(payload: Document)

  // ---------------------------------------------------------------------
  // submit_preferences

  /** Line 79: `[dietary]` when it is truthy and not the string "None". */
  function DietaryList(d: Value): (r: Value)
    ensures r == List([d]) <==> Truthy(d) && d != Str("None")
    ensures r != List([d]) ==> r == List([])
  {
    if Truthy(d) && d != Str("None") then List([d]) else List([])
  }

  /** Line 84: `['Wifi']` only when `wifiRequired` is exactly True. */
  function WifiList(w: Value): (r: Value)
    ensures r == List([Str("Wifi")]) <==> w == Bool(true)
    ensures r != List([Str("Wifi")]) ==> r == List([])
  {
    if w == Bool(true) then List([Str("Wifi")]) else List([])
  }

  /** The comprehension of line 82 over str items: each item and its
      1-based position; a repeated item keeps its first place and its last
      position. */
  function Positions(items: seq<Value>): (r: Document)
    requires forall i :: 0 <= i < |items| ==> items[i].Str?
    decreases |items|
  {
    if |items| == 0 then []
    else Set(Positions(items[..|items| - 1]), items[|items| - 1].s, Int(|items|))
  }

  /** Each item reads its 1-based position, the last one when it repeats. */
  lemma {:induction false} PositionsLast(items: seq<Value>, j: nat)
    requires forall i :: 0 <= i < |items| ==> items[i].Str?
    requires j < |items| && forall j' :: j < j' < |items| ==> items[j'] != items[j]
    ensures Get(Positions(items), items[j].s) == Some(Int(j + 1))
    decreases |items|
  {
    var n := |items|;
    if j < n - 1 {
      var init := items[..n - 1];
      assert init[j] == items[j];
      assert items[n - 1] != items[j];
      PositionsLast(init, j);
    }
  }

  /** Distinct priorities are numbered 1 to n in their order. */
  lemma {:induction false} PositionsDistinct(items: seq<Value>)
    requires forall i :: 0 <= i < |items| ==> items[i].Str?
    requires NoDup(items)
    ensures |Positions(items)| == |items|
    ensures forall i :: 0 <= i < |items| ==> Positions(items)[i] == Entry(items[i].s, Int(i + 1))
    decreases |items|
  {
    if |items| > 0 {
      var n := |items|;
      var init := items[..n - 1];
      NoDupInit(items);
      PositionsDistinct(init);
      var d := Positions(init);
      LastKeyNew(items);
      SetNew(d, items[n - 1].s, Int(n));
      var r := d + [Entry(items[n - 1].s, Int(n))];
      assert Positions(items) == r;
      forall i | 0 <= i < n ensures r[i] == Entry(items[i].s, Int(i + 1)) {
        if i < n - 1 {
          assert r[i] == d[i] && init[i] == items[i];
        }
      }
    }
  }

  lemma NoDupInit<T>(s: seq<T>)
    requires |s| > 0 && NoDup(s)
    ensures NoDup(s[..|s| - 1])
  {
    var init := s[..|s| - 1];
    forall i, j | 0 <= i < j < |init| ensures init[i] != init[j] {
      assert init[i] == s[i] && init[j] == s[j];
    }
  }

  /** The last of distinct items is not yet a key of the positions of the
      others. */
  lemma LastKeyNew(items: seq<Value>)
    requires |items| > 0 && forall i :: 0 <= i < |items| ==> items[i].Str?
    requires NoDup(items)
    requires var init := items[..|items| - 1];
             |Positions(init)| == |init| && forall i :: 0 <= i < |init| ==> Positions(init)[i] == Entry(init[i].s, Int(i + 1))
    ensures !HasKey(Positions(items[..|items| - 1]), items[|items| - 1].s)
  {
    var n := |items|;
    var d := Positions(items[..n - 1]);
    GetFound(d, items[n - 1].s);
    forall i | 0 <= i < |d| ensures d[i].key != items[n - 1].s {
      assert d[i].key == items[i].s;
      assert items[i] != items[n - 1];
    }
  }

  /** Whatever the repeats, the keys are exactly the items. */
  lemma {:induction false} PositionsKeys(items: seq<Value>, k: string)
    requires forall i :: 0 <= i < |items| ==> items[i].Str?
    ensures HasKey(Positions(items), k) <==> Str(k) in items
    decreases |items|
  {
    if |items| > 0 {
      var init, last := items[..|items| - 1], items[|items| - 1];
      assert forall x :: x in items <==> x in init || x == last;
      PositionsKeys(init, k);
    }
  }

  /** `dining_priority`: a list item that cannot be hashed raises at once;
      one that is not a str makes a key the store refuses at the insert. */
  function DiningPriority(items: seq<Value>): (r: Result<Document, Failure>)
    ensures r.Ok? <==> forall i :: 0 <= i < |items| ==> items[i].Str?
    ensures r.Ok? ==> r.value == Positions(items)
  {
    if exists i :: 0 <= i < |items| && !Hashable(items[i]) then Err(TypeError)
    else if exists i :: 0 <= i < |items| && !items[i].Str? then Err(InvalidDocument)
    else Ok(Positions(items))
  }

  /** Lines 76-85: the preference document built from a JSON object. */
  function PreferenceDocument(data: Document): (r: Result<Document, Failure>)
    ensures Iterate(GetOr(data, "priorities", List([]))).None? ==> r == Err(TypeError)
    ensures r.Ok? <==> Iterate(GetOr(data, "priorities", List([]))).Some?
                       && forall i :: 0 <= i < |Iterate(GetOr(data, "priorities", List([]))).value| ==>
                            Iterate(GetOr(data, "priorities", List([]))).value[i].Str?
    ensures r.Ok? ==> r.value == UserData(data, Positions(Iterate(GetOr(data, "priorities", List([]))).value))
  {
    match Iterate(GetOr(data, "priorities", List([])))
    case None => Err(TypeError)
    case Some(items) =>
      match DiningPriority(items)
      case Err(e) => Err(e)
      case Ok(dp) => Ok(UserData(data, dp))
  }

  /** The `user_data` dict literal, given the dining priorities: the keys
      of `UserDataKeys` in their order. */
  function UserData(data: Document, dp: Document): (r: Document)
    ensures |r| == |UserDataKeys| && forall j :: 0 <= j < |r| ==> r[j].key == UserDataKeys[j]
  {
    [Entry("nickname", GetOr(data, "nickname", Str(""))),
     Entry("city", GetOr(data, "city", Str(""))),
     Entry("dietary_preferences", DietaryList(GetOr(data, "dietary", Null))),
     Entry("cuisine_preferences", GetOr(data, "cuisines", List([]))),
     Entry("price_range", GetOr(data, "price", List([]))),
     Entry("dining_priority", Dict(dp)),
     Entry("restaurant_type", GetOr(data, "restaurantType", List([]))),
     Entry("wifi", WifiList(GetOr(data, "wifiRequired", Null)))]
  }

  /** The keys of `user_data`, in order. */
  const UserDataKeys: seq<string> :=
    ["nickname", "city", "dietary_preferences", "cuisine_preferences", "price_range",
     "dining_priority", "restaurant_type", "wifi"]

  lemma UserDataKeysDistinct()
    ensures NoDup(UserDataKeys)
  {
    assert forall i :: 0 <= i < |UserDataKeys| ==> |UserDataKeys[i]| == [8, 4, 19, 19, 11, 15, 15, 4][i];
    assert UserDataKeys[2][0] != UserDataKeys[3][0];
    assert UserDataKeys[5][0] != UserDataKeys[6][0];
    assert UserDataKeys[1][0] != UserDataKeys[7][0];
  }

  /** Each key of `user_data` finds its own entry. */
  lemma UserDataGet(data: Document, dp: Document, i: nat)
    requires i < |UserDataKeys|
    ensures Get(UserData(data, dp), UserDataKeys[i]) == Some(UserData(data, dp)[i].val)
  {
    var d := UserData(data, dp);
    assert forall j :: 0 <= j < |d| ==> d[j].key == UserDataKeys[j];
    UserDataKeysDistinct();
    GetFirst(d, UserDataKeys[i], i);
  }

  /** The fields of `user_data`: the body's values or their defaults, and
      the derived lists. */
  lemma UserDataFields(data: Document, dp: Document)
    ensures var doc := UserData(data, dp);
            && Get(doc, "nickname") == Some(GetOr(data, "nickname", Str("")))
            && Get(doc, "city") == Some(GetOr(data, "city", Str("")))
            && Get(doc, "dietary_preferences") == Some(DietaryList(GetOr(data, "dietary", Null)))
            && Get(doc, "cuisine_preferences") == Some(GetOr(data, "cuisines", List([])))
            && Get(doc, "price_range") == Some(GetOr(data, "price", List([])))
            && Get(doc, "dining_priority") == Some(Dict(dp))
            && Get(doc, "restaurant_type") == Some(GetOr(data, "restaurantType", List([])))
            && Get(doc, "wifi") == Some(WifiList(GetOr(data, "wifiRequired", Null)))
  {
    UserDataGet(data, dp, 0);
    UserDataGet(data, dp, 1);
    UserDataGet(data, dp, 2);
    UserDataGet(data, dp, 3);
    UserDataGet(data, dp, 4);
    UserDataGet(data, dp, 5);
    UserDataGet(data, dp, 6);
    UserDataGet(data, dp, 7);
  }

  /** An empty body gives empty strings, empty lists and no priorities. */
  lemma UserDataDefaults()
    ensures PreferenceDocument([]) == Ok(UserData([], []))
    ensures var doc := UserData([], []);
            && Get(doc, "nickname") == Some(Str("")) && Get(doc, "city") == Some(Str(""))
            && Get(doc, "dietary_preferences") == Some(List([])) && Get(doc, "cuisine_preferences") == Some(List([]))
            && Get(doc, "price_range") == Some(List([])) && Get(doc, "dining_priority") == Some(Dict([]))
            && Get(doc, "restaurant_type") == Some(List([])) && Get(doc, "wifi") == Some(List([]))
  {
    UserDataFields([], []);
  }

  /** `submit_preferences` up to the insert (lines 72-85): a missing,
      unparsable or empty body is a 400 and a body that is not an object
      makes `.get` raise. */
  function PreferencesToStore(body: Option<Value>): (r: Result<Document, Reply>)
    ensures body.None? || !Truthy(body.value) ==> r == Err(Error(400, "Invalid or missing JSON data"))
    ensures r.Ok? ==> body.Some? && body.value.Dict? && PreferenceDocument(body.value.entries) == Ok(r.value)
  {
    if body.None? || !Truthy(body.value) then Err(Error(400, "Invalid or missing JSON data"))
    else if !body.value.Dict? then Err(Error(500, "Internal Server Error"))
    else
      match PreferenceDocument(body.value.entries)
      case Err(_) => Err(Error(500, "Internal Server Error"))
      case Ok(doc) => Ok(doc)
  }

  /** What the store holds for the new user: `user_data` has no `_id`,
      so the stored document is the generated `_id` followed by every
      field as built, in order. */
  lemma StoredPreferences(body: Option<Value>, id: OidHex)
    requires PreferencesToStore(body).Ok?
    ensures !HasKey(PreferencesToStore(body).value, "_id")
    ensures Inserted(PreferencesToStore(body).value, id) == [Entry("_id", Oid(id))] + PreferencesToStore(body).value
  {
    var doc := PreferencesToStore(body).value;
    assert forall j :: 0 <= j < |doc| ==> doc[j].key == UserDataKeys[j];
    assert forall j :: 0 <= j < |UserDataKeys| ==> |UserDataKeys[j]| != 3;
    GetFound(doc, "_id");
  }

  /** A stored preference document carries its wifi list. */
  lemma StoredWifi(data: Document, id: OidHex)
    requires PreferenceDocument(data).Ok?
    ensures GetOr(Inserted(PreferenceDocument(data).value, id), "wifi", List([]))
            == WifiList(GetOr(data, "wifiRequired", Null))
  {
    var doc := PreferenceDocument(data).value;
    var items := Iterate(GetOr(data, "priorities", List([]))).value;
    assert doc == UserData(data, Positions(items));
    UserDataGet(data, Positions(items), 7);
    assert Get(Inserted(doc, id), "wifi") == Get(doc, "wifi");
  }

  /** The wifi value a stored preference document carries is a list, so
      the filter as written raises TypeError whenever it gets as far as the
      wifi lookup, and never returns criteria. */
  lemma StoredWifiBreaksFilter(data: Document, id: OidHex)
    requires PreferenceDocument(data).Ok?
    ensures ReadCriteriaWith(Inserted(PreferenceDocument(data).value, id), WifiFieldsAsWritten).Err?
  {
    StoredWifi(data, id);
    assert WifiFieldsAsWritten(WifiList(GetOr(data, "wifiRequired", Null))) == Err(TypeError);
  }

  /** Read as a list of labels, the stored wifi value asks for the
      free-wifi flag exactly when wifi was required. */
  lemma StoredWifiCorrected(data: Document, id: OidHex)
    requires PreferenceDocument(data).Ok?
    requires ReadCriteriaWith(Inserted(PreferenceDocument(data).value, id), WifiFields).Ok?
    ensures ReadCriteriaWith(Inserted(PreferenceDocument(data).value, id), WifiFields).value.wifiFields
            == if GetOr(data, "wifiRequired", Null) == Bool(true) then {"is_free_wifi"} else {}
  {
    StoredWifi(data, id);
    var w := WifiList(GetOr(data, "wifiRequired", Null));
    if w == List([Str("Wifi")]) {
      MappedSingle(Str("Wifi"));
      assert WifiFields(w) == Ok({"is_free_wifi"});
    } else {
      assert WifiFields(w) == Ok({});
    }
  }

  // ---------------------------------------------------------------------
  // submit_selection

  /** Lines 41-44: the city of the preferences, its first element when it
      is a list, capitalised; None when it is empty or missing, a raise
      when the list is empty or the city is not a str. */
  function NormalizedCity(prefs: Document): (r: Result<Option<string>, Failure>)
    ensures GetOr(prefs, "city", Null).Str? ==>
              r == Ok(if |GetOr(prefs, "city", Null).s| > 0 then Some(Capitalize(GetOr(prefs, "city", Null).s)) else None)
    ensures GetOr(prefs, "city", Null) == List([]) ==> r == Err(IndexError)
    ensures GetOr(prefs, "city", Null) == Null ==> r == Ok(None)
    ensures var c := GetOr(prefs, "city", Null);
            var city := if c.List? && |c.items| > 0 then c.items[0] else c;
            c != List([]) ==> (r == Ok(None) <==> !Truthy(city))
    ensures var c := GetOr(prefs, "city", Null);
            var city := if c.List? && |c.items| > 0 then c.items[0] else c;
            Truthy(city) && !city.Str? ==> r == Err(AttributeError)
    ensures r.Ok? && r.value.Some? ==> |r.value.value| > 0
  {
    var c := GetOr(prefs, "city", Null);
    var city := if c.List? && |c.items| > 0 then c.items[0] else c;
    if c == List([]) then Err(IndexError)
    else if !Truthy(city) then Ok(None)
    else if city.Str? then Ok(Some(Capitalize(city.s)))
    else Err(AttributeError)
  }

  /** A city stored as a list counts by its first element. */
  lemma CityListFirst(prefs: Document, s: string, rest: seq<Value>)
    requires GetOr(prefs, "city", Null) == List([Str(s)] + rest)
    ensures NormalizedCity(prefs) == Ok(if |s| > 0 then Some(Capitalize(s)) else None)
  {
  }

  /** What `submit_selection` needs once its checks pass. */
  datatype Selection = Selection(userId: OidHex, selected: Value, city: string)

  /** Lines 30-52: the input checks and the city lookup. A missing user
      id or selection is refused before the store is read. */
  function CheckSelection(data: Value, db: Db): (r: Result<Selection, Reply>)
    ensures data.Dict? && (!Truthy(GetOr(data.entries, "user_id", Null)) || !Truthy(GetOr(data.entries, "selected_restaurants", List([])))) ==>
              r == Err(Error(400, "Missing user ID or selected restaurants"))
    ensures r.Ok? ==> data.Dict? && ObjectIdOf(GetOr(data.entries, "user_id", Null)) == IdHex(r.value.userId)
                      && r.value.selected == GetOr(data.entries, "selected_restaurants", List([]))
                      && Truthy(r.value.selected) && |r.value.city| > 0
    ensures !data.Dict? ==> r == Err(Error(500, "Internal Server Error"))
    ensures data.Dict? ==>
              var uid := GetOr(data.entries, "user_id", Null);
              Truthy(uid) && Truthy(GetOr(data.entries, "selected_restaurants", List([]))) && ObjectIdOf(uid).BadId? ==>
              r == Err(Error(400, if uid.Str? then "Invalid user ID format" else "Preferences retrieval error"))
    ensures data.Dict? ==>
              var uid := GetOr(data.entries, "user_id", Null);
              (Truthy(uid) && Truthy(GetOr(data.entries, "selected_restaurants", List([])))
               && ObjectIdOf(uid).IdHex? && FindOne(Collection(db, "preferences"), "_id", Oid(ObjectIdOf(uid).hex)).None?) ==>
              r == Err(Error(404, "User preferences not found for city retrieval"))
    ensures data.Dict? ==>
              var uid := GetOr(data.entries, "user_id", Null);
              var selected := GetOr(data.entries, "selected_restaurants", List([]));
              (Truthy(uid) && Truthy(selected) && ObjectIdOf(uid).IdHex?
               && FindOne(Collection(db, "preferences"), "_id", Oid(ObjectIdOf(uid).hex)).Some?) ==>
              var prefs := FindOne(Collection(db, "preferences"), "_id", Oid(ObjectIdOf(uid).hex)).value;
              && (NormalizedCity(prefs).Err? ==> r == Err(Error(400, "Preferences retrieval error")))
              && (NormalizedCity(prefs) == Ok(None) ==> r == Err(Error(400, "City not found in user preferences")))
              && (NormalizedCity(prefs).Ok? && NormalizedCity(prefs).value.Some? ==>
                    r == Ok(Selection(ObjectIdOf(uid).hex, selected, NormalizedCity(prefs).value.value)))
  {
    if !data.Dict? then Err(Error(500, "Internal Server Error"))
    else
      var selected := GetOr(data.entries, "selected_restaurants", List([]));
      var userId := GetOr(data.entries, "user_id", Null);
      if !Truthy(userId) || !Truthy(selected) then Err(Error(400, "Missing user ID or selected restaurants"))
      else
        match ObjectIdOf(userId)
        case BadId =>
          if userId.Str? then Err(Error(400, "Invalid user ID format"))
          else Err(Error(400, "Preferences retrieval error"))
        case FreshId => Err(Error(404, "User preferences not found for city retrieval"))
        case IdHex(id) =>
          match FindOne(Collection(db, "preferences"), "_id", Oid(id))
          case None => Err(Error(404, "User preferences not found for city retrieval"))
          case Some(prefs) =>
            match NormalizedCity(prefs)
            case Err(_) => Err(Error(400, "Preferences retrieval error"))
            case Ok(None) => Err(Error(400, "City not found in user preferences"))
            case Ok(Some(city)) => Ok(Selection(id, selected, city))
  }

  /** The checks that do not read the store give the same answer whatever
      it holds. */
  lemma MissingInputIgnoresStore(data: Value, db1: Db, db2: Db)
    requires data.Dict?
    requires !Truthy(GetOr(data.entries, "user_id", Null)) || !Truthy(GetOr(data.entries, "selected_restaurants", List([])))
    ensures CheckSelection(data, db1) == CheckSelection(data, db2)
  {
  }

  /** The missing-input reply is given only when an input is missing. */
  lemma MissingInputOnlyWhenMissing(data: Value, db: Db)
    requires data.Dict?
    requires Truthy(GetOr(data.entries, "user_id", Null)) && Truthy(GetOr(data.entries, "selected_restaurants", List([])))
    ensures CheckSelection(data, db) != Err(Error(400, "Missing user ID or selected restaurants"))
  {
  }

  /** The handlers over one store. */
  class Routes {
    const store: Database
    const service: ProfileService

    predicate Valid()
      reads this, service
    {
      service.db == store
    }

    constructor (store: Database)
      ensures this.store == store && Valid()
    {
      this.store := store;
      service := new ProfileService(store);
    }

    /** `submit_preferences()`: the document is stored with the id the store
        generated, which is returned; nothing is stored on an error. */
    method SubmitPreferences(body: Option<Value>, newId: OidHex) returns (reply: Reply)
      requires Valid()
      modifies store
      ensures PreferencesToStore(body).Err? ==> reply == PreferencesToStore(body).error && store.collections == old(store.collections)
      ensures PreferencesToStore(body).Ok? ==>
                reply == Success([Entry("status", Str("success")), Entry("user_id", Str(newId))])
                && store.collections == old(store.collections)["preferences" :=
                     Collection(old(store.collections), "preferences") + [[Entry("_id", Oid(newId))] + PreferencesToStore(body).value]]
    {
      var doc := PreferencesToStore(body);
      if doc.Err? {
        return doc.error;
      }
      StoredPreferences(body, newId);
      store.InsertOne("preferences", doc.value, newId);
      reply := Success([Entry("status", Str("success")), Entry("user_id", Str(newId))]);
    }

    /** `submit_selection()` (lines 22-62): after the checks, the selection
        and the city are written to the user's document, then the profile
        is built and stored; the reply carries the sanitized profile. When
        building the profile raises, the reply is a 500 and the selection
        stays written. */
    method SubmitSelection(data: Value, p: Parsers, round3: real -> real) returns (reply: Reply)
      requires Valid()
      modifies store
      ensures CheckSelection(data, old(store.collections)).Err? ==>
                reply == CheckSelection(data, old(store.collections)).error && store.collections == old(store.collections)
      ensures CheckSelection(data, old(store.collections)).Ok? ==>
                store.collections == AfterSelection(old(store.collections), CheckSelection(data, old(store.collections)).value, p, round3)
      ensures CheckSelection(data, old(store.collections)).Ok? ==>
                var prof := SelectionProfile(old(store.collections), CheckSelection(data, old(store.collections)).value, p, round3);
                && (prof.Some? ==> reply == Success([Entry("status", Str("success")), Entry("user_profile", Sanitize(Dict(prof.value)))]))
                && (prof.None? ==> reply == Error(500, "Failed to save selection"))
    {
      var check := CheckSelection(data, store.collections);
      if check.Err? {
        return check.error;
      }
      var s := check.value;
      store.UpsertField("users", s.userId, "selected_restaurants", s.selected);
      store.UpsertField("users", s.userId, "city", Str(s.city));
      ghost var written := WithSelection(old(store.collections), s);
      assert store.collections == written;
      var ids := Iterate(s.selected);
      if ids.None? {
        return Error(500, "Failed to save selection");
      }
      var profile := service.CreateUserProfile(s.userId, ids.value, s.city, p, round3);
      if profile.Err? {
        return Error(500, "Failed to save selection");
      }
      reply := Success([Entry("status", Str("success")), Entry("user_profile", Sanitize(Dict(profile.value)))]);
    }
  }

  /** The profile lines 56-58 build once the selection is written: None
      when `create_user_profile` raises (a selection that cannot be
      iterated, a city without a collection, a refused id, a field that
      does not add up). */
  function SelectionProfile(db: Db, s: Selection, p: Parsers, round3: real -> real): (r: Option<Document>)
    ensures r.Some? <==> Iterate(s.selected).Some?
                         && Profile(WithSelection(db, s), s.userId, Iterate(s.selected).value, s.city, p, round3).Ok?
    ensures r.Some? ==> r == Some(Profile(WithSelection(db, s), s.userId, Iterate(s.selected).value, s.city, p, round3).value)
  {
    match Iterate(s.selected)
    case None => None
    case Some(ids) =>
      match Profile(WithSelection(db, s), s.userId, ids, s.city, p, round3)
      case Err(_) => None
      case Ok(prof) => Some(prof)
  }

  /** The store after lines 54-62: the selection and the city are written
      whatever follows; the profile is stored under the user only when it
      was built. */
  function AfterSelection(db: Db, s: Selection, p: Parsers, round3: real -> real): (r: Db)
    ensures SelectionProfile(db, s, p, round3).None? ==> r == WithSelection(db, s)
    ensures SelectionProfile(db, s, p, round3).Some? ==>
              r == WithSelection(db, s)["users" := Upserted(Collection(WithSelection(db, s), "users"), s.userId, "profile",
                                                            Dict(SelectionProfile(db, s, p, round3).value))]
    ensures var users := Collection(r, "users");
            && 0 <= IndexOfId(users, s.userId)
            && Get(users[IndexOfId(users, s.userId)], "selected_restaurants") == Some(s.selected)
            && Get(users[IndexOfId(users, s.userId)], "city") == Some(Str(s.city))
            && (SelectionProfile(db, s, p, round3).Some? ==>
                  Get(users[IndexOfId(users, s.userId)], "profile") == Some(Dict(SelectionProfile(db, s, p, round3).value)))
  {
    var written := WithSelection(db, s);
    var w := Collection(written, "users");
    match SelectionProfile(db, s, p, round3)
    case None => written
    case Some(prof) =>
      UpsertedFields(w, s.userId, "profile", Dict(prof), "selected_restaurants");
      UpsertedFields(w, s.userId, "profile", Dict(prof), "city");
      written["users" := Upserted(w, s.userId, "profile", Dict(prof))]
  }

  /** The store after `add_selected_restaurants` (line 54): the user's
      document, created when missing, holds the selection and the city,
      and no other collection changes. */
  function WithSelection(db: Db, s: Selection): (r: Db)
    ensures forall n :: n != "users" ==> Collection(r, n) == Collection(db, n)
    ensures var users := Collection(r, "users");
            && 0 <= IndexOfId(users, s.userId)
            && Get(users[IndexOfId(users, s.userId)], "selected_restaurants") == Some(s.selected)
            && Get(users[IndexOfId(users, s.userId)], "city") == Some(Str(s.city))
  {
    var users := Upserted(Collection(db, "users"), s.userId, "selected_restaurants", s.selected);
    var db1 := db["users" := users];
    UpsertedFields(users, s.userId, "city", Str(s.city), "selected_restaurants");
    db1["users" := Upserted(Collection(db1, "users"), s.userId, "city", Str(s.city))]
  }
}
