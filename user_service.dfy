/** `UserService.create_user_profile`: the field-wise averages of the
    restaurants a user selected, written to the user's document. */
module UserService {
  import opened Wrappers
  import opened PyValues
  import opened Lists
  import opened Store

  const RatingFields: seq<string> :=
    ["food_rating_norm", "service_rating_norm", "value_rating_norm", "atmosphere_rating_norm"]

  lemma RatingFieldsDistinct()
    ensures NoDup(RatingFields)
  {
    assert forall i :: 0 <= i < |RatingFields| ==> RatingFields[i][0] == "fsva"[i];
  }

  predicate IsFlagName(k: string) {
    "is_" <= k
  }

  /** Lines 39-41: the "is_" keys of the first restaurant found, in its key
      order; none when nothing was found. */
  function BinaryFields(found: seq<Document>): (r: seq<string>)
    ensures |found| == 0 ==> r == []
    ensures forall k :: k in r <==> |found| > 0 && k in Keys(found[0]) && IsFlagName(k)
    ensures |found| > 0 ==> Subseq(r, Keys(found[0]))
  {
    if |found| == 0 then [] else Filter(Keys(found[0]), IsFlagName)
  }

  /** A store document is a Python dict, so its keys are distinct; then so
      are the fields averaged. */
  lemma FieldsDistinct(found: seq<Document>)
    requires |found| > 0 ==> NoDup(Keys(found[0]))
    ensures NoDup(RatingFields + BinaryFields(found))
  {
    if |found| > 0 {
      FilterNoDup(Keys(found[0]), IsFlagName);
    }
    var fs := RatingFields + BinaryFields(found);
    assert forall i :: 0 <= i < |RatingFields| ==> RatingFields[i][0] == 'f' || RatingFields[i][0] == 's'
                                                   || RatingFields[i][0] == 'v' || RatingFields[i][0] == 'a';
    forall i, j | 0 <= i < j < |fs| ensures fs[i] != fs[j] {
      if j >= |RatingFields| {
        assert IsFlagName(fs[j]) && fs[j][0] == 'i';
        if i < |RatingFields| {
          assert fs[i] == RatingFields[i];
        }
      }
    }
  }

  predicate IsNumber(v: Value) {
    v.Bool? || v.Int? || v.Num?
  }

  function IntOf(v: Value): int
    requires v.Bool? || v.Int?
  {
    if v.Bool? then (if v.b then 1 else 0) else v.i
  }

  /** Python's `a + b`; None where it raises TypeError. Only numbers are
      added here, because every total starts as the int 0. */
  function PyAdd(a: Value, b: Value): (r: Option<Value>)
    ensures r.Some? <==> IsNumber(a) && IsNumber(b)
    ensures r.Some? ==> IsNumber(r.value)
    ensures r.Some? && (a == Num(NaN) || b == Num(NaN)) ==> r == Some(Num(NaN))
    ensures r.Some? && NumericValue(a).Some? && NumericValue(b).Some? ==>
              NumericValue(r.value) == Some(NumericValue(a).value + NumericValue(b).value)
    ensures r.Some? && (a.Int? || a.Bool?) && (b.Int? || b.Bool?) ==> r.value.Int?
  {
    if !IsNumber(a) || !IsNumber(b) then None
    else if a == Num(NaN) || b == Num(NaN) then Some(Num(NaN))
    else if a.Num? || b.Num? then Some(Num(Finite(NumericValue(a).value + NumericValue(b).value)))
    else Some(Int(IntOf(a) + IntOf(b)))
  }

  /** One `field_totals[field] += ...` (lines 48 and 50): a rating adds the
      stored value, a binary field adds `int()` of it; a missing field
      adds 0. */
  function Step(total: Value, d: Document, field: string, binary: bool, p: Parsers): (r: Result<Value, Failure>)
    ensures !HasKey(d, field) && IsNumber(total) ==> r.Ok? && NumericValue(r.value) == NumericValue(total)
  {
    var x := GetOr(d, field, Int(0));
    var inc := if binary then (match PyInt(x, p) case Some(n) => Ok(Int(n)) case None => Err(ConversionError)) else Ok(x);
    match inc
    case Err(e) => Err(e)
    case Ok(y) =>
      match PyAdd(total, y)
      case Some(s) => Ok(s)
      case None => Err(TypeError)
  }

  /** The totals after one field of one restaurant. */
  function AddField(totals: Document, d: Document, field: string, binary: bool, p: Parsers): Result<Document, Failure> {
    match Step(GetOr(totals, field, Int(0)), d, field, binary, p)
    case Err(e) => Err(e)
    case Ok(v) => Ok(Set(totals, field, v))
  }

  /** The inner loops of lines 47-50: the fields in order, stopping at the
      first that raises. */
  function AddFields(totals: Document, d: Document, fields: seq<string>, binary: bool, p: Parsers): Result<Document, Failure>
    decreases |fields|
  {
    if |fields| == 0 then Ok(totals)
    else
      match AddFields(totals, d, fields[..|fields| - 1], binary, p)
      case Err(e) => Err(e)
      case Ok(t) => AddField(t, d, fields[|fields| - 1], binary, p)
  }

  /** The fields loop one field further. */
  lemma AddFieldsNext(totals: Document, d: Document, fields: seq<string>, j: nat, binary: bool, p: Parsers, t: Document)
    requires j < |fields|
    requires AddFields(totals, d, fields[..j], binary, p) == Ok(t)
    ensures AddFields(totals, d, fields[..j + 1], binary, p) == AddField(t, d, fields[j], binary, p)
  {
    assert fields[..j + 1][..j] == fields[..j];
  }

  /** Once a field raises, the rest of the loop does not run. */
  lemma {:induction false} AddFieldsStopsAtError(totals: Document, d: Document, fields: seq<string>, j: nat, binary: bool, p: Parsers)
    requires j <= |fields|
    requires AddFields(totals, d, fields[..j], binary, p).Err?
    ensures AddFields(totals, d, fields, binary, p) == AddFields(totals, d, fields[..j], binary, p)
    decreases |fields|
  {
    if j < |fields| {
      var init := fields[..|fields| - 1];
      assert init[..j] == fields[..j];
      AddFieldsStopsAtError(totals, d, init, j, binary, p);
    } else {
      assert fields[..j] == fields;
    }
  }

  /** One pass of the outer loop (lines 46-50). */
  function AddRestaurant(totals: Document, d: Document, binaryFields: seq<string>, p: Parsers): Result<Document, Failure> {
    match AddFields(totals, d, RatingFields, false, p)
    case Err(e) => Err(e)
    case Ok(t) => AddFields(t, d, binaryFields, true, p)
  }

  /** Line 43: every field with total 0. */
  function ZeroTotals(fields: seq<string>): (r: Document)
    ensures forall k :: k in fields ==> Get(r, k) == Some(Int(0))
    ensures forall k :: k !in fields ==> Get(r, k).None?
    decreases |fields|
  {
    if |fields| == 0 then []
    else Set(ZeroTotals(fields[..|fields| - 1]), fields[|fields| - 1], Int(0))
  }

  /** `field_totals` after the restaurants have been added, in order. */
  function Totals(found: seq<Document>, binaryFields: seq<string>, p: Parsers): Result<Document, Failure>
    decreases |found|
  {
    if |found| == 0 then Ok(ZeroTotals(RatingFields + binaryFields))
    else
      match Totals(found[..|found| - 1], binaryFields, p)
      case Err(e) => Err(e)
      case Ok(t) => AddRestaurant(t, found[|found| - 1], binaryFields, p)
  }

  /** Once a restaurant raises, the later ones are not added. */
  lemma {:induction false} TotalsStopAtError(found: seq<Document>, i: nat, binaryFields: seq<string>, p: Parsers)
    requires i <= |found|
    requires Totals(found[..i], binaryFields, p).Err?
    ensures Totals(found, binaryFields, p) == Totals(found[..i], binaryFields, p)
    decreases |found|
  {
    if i < |found| {
      var init := found[..|found| - 1];
      assert init[..i] == found[..i];
      TotalsStopAtError(init, i, binaryFields, p);
    } else {
      assert found[..i] == found;
    }
  }

  /** The reference sum of one field over the restaurants: 0, then each
      restaurant's contribution added in turn. */
  function FieldSum(found: seq<Document>, field: string, binary: bool, p: Parsers): Result<Value, Failure>
    decreases |found|
  {
    if |found| == 0 then Ok(Int(0))
    else
      match FieldSum(found[..|found| - 1], field, binary, p)
      case Err(e) => Err(e)
      case Ok(s) => Step(s, found[|found| - 1], field, binary, p)
  }

  /** The fields loop touches only its fields, and each of them exactly
      once when they are distinct. */
  lemma {:induction false} AddFieldsEffect(totals: Document, d: Document, fields: seq<string>, binary: bool, p: Parsers, k: string)
    requires AddFields(totals, d, fields, binary, p).Ok?
    ensures k !in fields ==> Get(AddFields(totals, d, fields, binary, p).value, k) == Get(totals, k)
    ensures NoDup(fields) && k in fields ==>
              Step(GetOr(totals, k, Int(0)), d, k, binary, p).Ok?
              && Get(AddFields(totals, d, fields, binary, p).value, k) == Some(Step(GetOr(totals, k, Int(0)), d, k, binary, p).value)
    decreases |fields|
  {
    if |fields| > 0 {
      var init, last := fields[..|fields| - 1], fields[|fields| - 1];
      assert forall x :: x in fields <==> x in init || x == last;
      assert AddFields(totals, d, init, binary, p).Ok?;
      AddFieldsEffect(totals, d, init, binary, p, k);
      var t := AddFields(totals, d, init, binary, p).value;
      var s := Step(GetOr(t, last, Int(0)), d, last, binary, p);
      assert s.Ok? && AddFields(totals, d, fields, binary, p).value == Set(t, last, s.value);
      if k != last {
        assert Get(Set(t, last, s.value), k) == Get(t, k);
      } else {
        assert Get(Set(t, last, s.value), k) == Some(s.value);
        if NoDup(fields) {
          assert k !in init by {
            forall i | 0 <= i < |init| ensures init[i] != k {
              assert fields[i] == init[i];
            }
          }
        }
      }
    }
  }

  /** Distinct averaged fields: the binary fields are distinct and none is
      a rating field. */
  lemma DistinctParts(binaryFields: seq<string>)
    requires NoDup(RatingFields + binaryFields)
    ensures NoDup(binaryFields)
    ensures forall f :: f in RatingFields ==> f !in binaryFields
    ensures forall f :: f in RatingFields + binaryFields <==> f in RatingFields || f in binaryFields
  {
    var fs := RatingFields + binaryFields;
    forall i, j | 0 <= i < j < |binaryFields| ensures binaryFields[i] != binaryFields[j] {
      assert fs[|RatingFields| + i] == binaryFields[i];
      assert fs[|RatingFields| + j] == binaryFields[j];
    }
    forall i, j | 0 <= i < |RatingFields| && 0 <= j < |binaryFields| ensures RatingFields[i] != binaryFields[j] {
      assert fs[i] == RatingFields[i] && fs[|RatingFields| + j] == binaryFields[j];
    }
  }

  /** Each total is the reference sum of its field: the rating fields sum
      the stored values, the binary fields their `int()`. */
  lemma {:induction false} TotalsAreSums(found: seq<Document>, binaryFields: seq<string>, p: Parsers, f: string)
    requires NoDup(RatingFields + binaryFields)
    requires f in RatingFields + binaryFields
    requires Totals(found, binaryFields, p).Ok?
    ensures FieldSum(found, f, f in binaryFields, p).Ok?
    ensures Get(Totals(found, binaryFields, p).value, f) == Some(FieldSum(found, f, f in binaryFields, p).value)
    decreases |found|
  {
    DistinctParts(binaryFields);
    var binary := f in binaryFields;
    if |found| > 0 {
      var init, d := found[..|found| - 1], found[|found| - 1];
      assert Totals(init, binaryFields, p).Ok?;
      TotalsAreSums(init, binaryFields, p, f);
      var t := Totals(init, binaryFields, p).value;
      var s0 := FieldSum(init, f, binary, p).value;
      assert GetOr(t, f, Int(0)) == s0;
      assert AddRestaurant(t, d, binaryFields, p) == Totals(found, binaryFields, p);
      assert AddFields(t, d, RatingFields, false, p).Ok?;
      AddFieldsEffect(t, d, RatingFields, false, p, f);
      var t1 := AddFields(t, d, RatingFields, false, p).value;
      AddFieldsEffect(t1, d, binaryFields, true, p, f);
      assert FieldSum(found, f, binary, p) == Step(s0, d, f, binary, p);
      var t2 := AddFields(t1, d, binaryFields, true, p).value;
      assert Totals(found, binaryFields, p).value == t2;
      if binary {
        assert Get(t1, f) == Some(s0);
        assert GetOr(t1, f, Int(0)) == s0;
        assert Get(t2, f) == Some(Step(s0, d, f, true, p).value);
      } else {
        RatingFieldsDistinct();
        assert f in RatingFields;
        assert Get(t1, f) == Some(Step(s0, d, f, false, p).value);
        assert Get(t2, f) == Get(t1, f);
      }
    } else {
      assert Get(ZeroTotals(RatingFields + binaryFields), f) == Some(Int(0));
    }
  }

  /** Line 55: `round(total / count, 3)`, with the rounding a parameter. */
  function Mean(total: Value, count: nat, round3: real -> real): (r: Value)
    requires count > 0
    ensures total == Num(NaN) ==> r == Num(NaN)
    ensures NumericValue(total).Some? ==> r == Num(Finite(round3(NumericValue(total).value / count as real)))
  {
    match NumericValue(total)
    case Some(x) => Num(Finite(round3(x / count as real)))
    case None => if total == Num(NaN) then Num(NaN) else Null
  }

  /** The averages of lines 52-60. */
  function Averages(totals: Document, fields: seq<string>, count: nat, round3: real -> real): (r: Document)
    decreases |fields|
  {
    if |fields| == 0 then []
    else
      var f := fields[|fields| - 1];
      Set(Averages(totals, fields[..|fields| - 1], count, round3), f,
          if count > 0 then Mean(GetOr(totals, f, Int(0)), count, round3) else Num(Finite(0.0)))
  }

  /** The averages have exactly the averaged fields as keys; with no
      restaurant each is 0.0, and otherwise each is the rounded mean of its
      total. */
  lemma {:induction false} AveragesGet(totals: Document, fields: seq<string>, count: nat, round3: real -> real, k: string)
    ensures HasKey(Averages(totals, fields, count, round3), k) <==> k in fields
    ensures k in fields && count == 0 ==> Get(Averages(totals, fields, count, round3), k) == Some(Num(Finite(0.0)))
    ensures k in fields && count > 0 ==>
              Get(Averages(totals, fields, count, round3), k) == Some(Mean(GetOr(totals, k, Int(0)), count, round3))
    decreases |fields|
  {
    if |fields| > 0 {
      var init, last := fields[..|fields| - 1], fields[|fields| - 1];
      assert forall x :: x in fields <==> x in init || x == last;
      AveragesGet(totals, init, count, round3, k);
      var a := Averages(totals, init, count, round3);
      var v := if count > 0 then Mean(GetOr(totals, last, Int(0)), count, round3) else Num(Finite(0.0));
      var r := Set(a, last, v);
      assert Averages(totals, fields, count, round3) == r;
      if k == last {
        assert Get(r, k) == Some(v);
      } else {
        assert Get(r, k) == Get(a, k);
      }
      assert HasKey(r, k) <==> Get(r, k).Some?;
      assert HasKey(a, k) <==> Get(a, k).Some?;
    }
  }

  /** `[ObjectId(rid) for rid in restaurant_ids]` in the repository's
      `find_by_ids`: the ids the query asks for, or the exception of an id
      `ObjectId` refuses. A None item gives a newly generated id, which no
      stored restaurant carries, so it asks for nothing. */
  function QueryIds(selected: seq<Value>): (r: Result<set<OidHex>, Failure>)
    ensures r.Ok? <==> forall i :: 0 <= i < |selected| ==> !ObjectIdOf(selected[i]).BadId?
    ensures r.Ok? ==> forall h :: h in r.value <==> exists i :: 0 <= i < |selected| && ObjectIdOf(selected[i]) == IdHex(h)
    decreases |selected|
  {
    if |selected| == 0 then Ok({})
    else
      var head := ObjectIdOf(selected[0]);
      assert forall i :: 0 < i < |selected| ==> selected[i] == selected[1..][i - 1];
      if head.BadId? then Err(IdFailure(selected[0]))
      else
        match QueryIds(selected[1..])
        case Err(e) => Err(e)
        case Ok(rest) => Ok((if head.IdHex? then {head.hex} else {}) + rest)
  }

  /** The comprehension raises at the first id `ObjectId` refuses, with
      that id's exception. */
  lemma {:induction false} QueryIdsFirstBad(selected: seq<Value>, i: nat)
    requires i < |selected| && ObjectIdOf(selected[i]).BadId?
    requires forall j :: 0 <= j < i ==> !ObjectIdOf(selected[j]).BadId?
    ensures QueryIds(selected) == Err(IdFailure(selected[i]))
  {
    if i > 0 {
      var tail := selected[1..];
      assert tail[i - 1] == selected[i];
      assert forall j :: 0 <= j < i - 1 ==> tail[j] == selected[j + 1];
      QueryIdsFirstBad(tail, i - 1);
    }
  }

  /** Line 33 and the repository's `find_by_ids`: the restaurants of the
      city whose ids are among the selected ones. A city without a
      collection makes the call on None raise before any id is read; an
      id `ObjectId` refuses raises. */
  function FoundRestaurants(db: Db, selected: seq<Value>, city: string): (r: Result<seq<Document>, Failure>)
    ensures city !in CityCollections ==> r == Err(AttributeError)
    ensures city in CityCollections ==> (r.Ok? <==> QueryIds(selected).Ok?)
    ensures city in CityCollections && r.Err? ==> r.error == QueryIds(selected).error
  {
    if city !in CityCollections then Err(AttributeError)
    else
      match QueryIds(selected)
      case Err(e) => Err(e)
      case Ok(ids) => Ok(FindByIds(Collection(db, CityCollections[city]), ids))
  }

  /** The restaurants found are those of the city's collection whose id is
      one of the selected ids. */
  lemma FoundRestaurantsMembers(db: Db, selected: seq<Value>, city: string, d: Document)
    requires FoundRestaurants(db, selected, city).Ok?
    ensures d in FoundRestaurants(db, selected, city).value <==>
              d in Collection(db, CityCollections[city])
              && exists i :: 0 <= i < |selected| && ObjectIdOf(selected[i]).IdHex?
                             && Get(d, "_id") == Some(Oid(ObjectIdOf(selected[i]).hex))
  {
    var ids := QueryIds(selected).value;
    assert d in FindByIds(Collection(db, CityCollections[city]), ids) <==>
      d in Collection(db, CityCollections[city]) && exists h :: h in ids && Get(d, "_id") == Some(Oid(h));
  }

  /** A selection of None items asks for no id and finds nothing, so the
      profile is built from no restaurant rather than refused. */
  lemma NullSelectionFindsNothing(db: Db, city: string, n: nat)
    requires city in CityCollections
    ensures FoundRestaurants(db, seq(n, i => Null), city) == Ok([])
  {
    var selected := seq(n, i => Null);
    assert forall i :: 0 <= i < |selected| ==> ObjectIdOf(selected[i]) == FreshId;
    var found := FoundRestaurants(db, selected, city).value;
    if |found| > 0 {
      FoundRestaurantsMembers(db, selected, city, found[0]);
    }
  }

  /** `str(r["_id"])` of a restaurant found by id. */
  function IdText(d: Document): Value {
    match Get(d, "_id")
    case Some(Oid(h)) => Str(h)
    case _ => Null
  }

  function IdTexts(found: seq<Document>): (r: seq<Value>)
    ensures |r| == |found|
    ensures forall i :: 0 <= i < |found| ==> r[i] == IdText(found[i])
  {
    seq(|found|, i requires 0 <= i < |found| => IdText(found[i]))
  }

  /** Lines 62-67. */
  function ProfileDoc(userId: OidHex, city: string, found: seq<Document>, averages: Document): (r: Document)
    ensures Get(r, "user_id") == Some(Str(userId))
    ensures Get(r, "city") == Some(Str(city))
    ensures Get(r, "selected_restaurants") == Some(List(IdTexts(found)))
    ensures Get(r, "averages") == Some(Dict(averages))
  {
    var r := [Entry("user_id", Str(userId)), Entry("city", Str(city)),
              Entry("selected_restaurants", List(IdTexts(found))), Entry("averages", Dict(averages))];
    var tail := r[1..][1..];
    assert tail == [Entry("selected_restaurants", List(IdTexts(found))), Entry("averages", Dict(averages))];
    assert Get(r, "selected_restaurants") == Get(tail, "selected_restaurants");
    assert Get(r, "averages") == Get(tail, "averages");
    assert tail[1..] == [Entry("averages", Dict(averages))];
    assert Get(tail, "averages") == Get(tail[1..], "averages");
    r
  }

  /** The profile `create_user_profile` returns, or what it raises. */
  function Profile(db: Db, userId: OidHex, selected: seq<Value>, city: string, p: Parsers, round3: real -> real): (r: Result<Document, Failure>)
    ensures r.Ok? ==> FoundRestaurants(db, selected, city).Ok?
  {
    match FoundRestaurants(db, selected, city)
    case Err(e) => Err(e)
    case Ok(found) =>
      var binaryFields := BinaryFields(found);
      match Totals(found, binaryFields, p)
      case Err(e) => Err(e)
      case Ok(totals) =>
        Ok(ProfileDoc(userId, city, found, Averages(totals, RatingFields + binaryFields, |found|, round3)))
  }

  /** What the profile says: the ids of the restaurants actually found, in
      store order, and for every averaged field (the four ratings and the
      first restaurant's "is_" keys) the rounded mean of its reference sum,
      or 0.0 when nothing was found. */
  lemma ProfileAverages(db: Db, userId: OidHex, selected: seq<Value>, city: string, p: Parsers, round3: real -> real, f: string)
    requires Profile(db, userId, selected, city, p, round3).Ok?
    requires forall i :: 0 <= i < |FoundRestaurants(db, selected, city).value| ==>
               NoDup(Keys(FoundRestaurants(db, selected, city).value[i]))
    ensures var found := FoundRestaurants(db, selected, city).value;
            var prof := Profile(db, userId, selected, city, p, round3).value;
            var fields := RatingFields + BinaryFields(found);
            && Get(prof, "selected_restaurants") == Some(List(IdTexts(found)))
            && Get(prof, "averages").Some? && Get(prof, "averages").value.Dict?
            && (HasKey(Get(prof, "averages").value.entries, f) <==> f in fields)
            && (f in fields && |found| == 0 ==> Get(Get(prof, "averages").value.entries, f) == Some(Num(Finite(0.0))))
            && (f in fields && |found| > 0 ==>
                  FieldSum(found, f, f in BinaryFields(found), p).Ok?
                  && Get(Get(prof, "averages").value.entries, f)
                     == Some(Mean(FieldSum(found, f, f in BinaryFields(found), p).value, |found|, round3)))
  {
    var found := FoundRestaurants(db, selected, city).value;
    var bin := BinaryFields(found);
    var totals := Totals(found, bin, p).value;
    var avg := Averages(totals, RatingFields + bin, |found|, round3);
    AveragesGet(totals, RatingFields + bin, |found|, round3, f);
    if f in RatingFields + bin && |found| > 0 {
      FieldsDistinct(found);
      TotalsAreSums(found, bin, p, f);
    }
  }

  /** With no restaurant found the totals are untouched. */
  lemma NoneFoundTotals(binaryFields: seq<string>, p: Parsers)
    ensures Totals([], binaryFields, p) == Ok(ZeroTotals(RatingFields + binaryFields))
  {
  }

  /** The service `create_user_profile` calls into: the store it reads and
      writes. */
  class ProfileService {
    var db: Database

    constructor (db: Database)
      ensures this.db == db
    {
      this.db := db;
    }

    /** `create_user_profile(user_id, selected_restaurants, city)` (lines
        19-70): the same profile is returned and stored under the user's
        "profile" key; nothing is written when it raises. */
    method CreateUserProfile(userId: OidHex, selected: seq<Value>, city: string, p: Parsers, round3: real -> real)
      returns (r: Result<Document, Failure>)
      modifies db
      ensures r == Profile(old(db.collections), userId, selected, city, p, round3)
      ensures r.Ok? ==>
                db.collections == old(db.collections)["users" := Upserted(Collection(old(db.collections), "users"), userId, "profile", Dict(r.value))]
      ensures r.Err? ==> db.collections == old(db.collections)
    {
      var res := FoundRestaurants(db.collections, selected, city);
      if res.Err? {
        r := Err(res.error);
        return;
      }
      var found := res.value;
      var binaryFields := BinaryFields(found);
      var fields := RatingFields + binaryFields;
      var totals := SumFields(found, binaryFields, p);
      if totals.Err? {
        return totals;
      }
      var averages := AverageFields(totals.value, fields, |found|, round3);
      r := Ok(ProfileDoc(userId, city, found, averages));
      assert r == Profile(db.collections, userId, selected, city, p, round3);
      db.UpsertField("users", userId, "profile", Dict(r.value));
    }
  }

  /** The nested loops of lines 46-50. */
  method SumFields(found: seq<Document>, binaryFields: seq<string>, p: Parsers) returns (r: Result<Document, Failure>)
    ensures r == Totals(found, binaryFields, p)
  {
    var totals := ZeroTotals(RatingFields + binaryFields);
    var i := 0;
    while i < |found|
      invariant 0 <= i <= |found|
      invariant Totals(found[..i], binaryFields, p) == Ok(totals)
    {
      assert found[..i + 1][..i] == found[..i];
      var afterRatings := AddEach(totals, found[i], RatingFields, false, p);
      if afterRatings.Err? {
        TotalsStopAtError(found, i + 1, binaryFields, p);
        return afterRatings;
      }
      var afterFlags := AddEach(afterRatings.value, found[i], binaryFields, true, p);
      if afterFlags.Err? {
        TotalsStopAtError(found, i + 1, binaryFields, p);
        return afterFlags;
      }
      totals := afterFlags.value;
      i := i + 1;
    }
    assert found[..i] == found;
    return Ok(totals);
  }

  /** One inner loop of lines 47-50: `field_totals[field] += ...` for each
      field in turn. */
  method AddEach(totals: Document, d: Document, fields: seq<string>, binary: bool, p: Parsers) returns (r: Result<Document, Failure>)
    ensures r == AddFields(totals, d, fields, binary, p)
  {
    var t := totals;
    var j := 0;
    while j < |fields|
      invariant 0 <= j <= |fields|
      invariant AddFields(totals, d, fields[..j], binary, p) == Ok(t)
    {
      AddFieldsNext(totals, d, fields, j, binary, p, t);
      var next := AddField(t, d, fields[j], binary, p);
      if next.Err? {
        AddFieldsStopsAtError(totals, d, fields, j + 1, binary, p);
        return next;
      }
      t := next.value;
      j := j + 1;
    }
    assert fields[..j] == fields;
    return Ok(t);
  }

  /** Lines 52-60: the comprehension when something was found, the loop
      setting every field to 0.0 otherwise. */
  method AverageFields(totals: Document, fields: seq<string>, count: nat, round3: real -> real) returns (averages: Document)
    ensures averages == Averages(totals, fields, count, round3)
  {
    if count > 0 {
      return Averages(totals, fields, count, round3);
    }
    averages := [];
    var k := 0;
    while k < |fields|
      invariant 0 <= k <= |fields|
      invariant averages == Averages(totals, fields[..k], count, round3)
    {
      assert fields[..k + 1][..k] == fields[..k];
      averages := Set(averages, fields[k], Num(Finite(0.0)));
      k := k + 1;
    }
    assert fields[..k] == fields;
  }
}
