/** `select_top_restaurants`: the canonical key of a combination of
    preferences, and the resolution of the restaurant links stored under
    that key. */
module Clustering {
  import opened Wrappers
  import opened PyValues
  import opened Text
  import opened Lists
  import opened Store
  import opened DataSanitizer

  /** An argument that may be a str or a list of str. */
  datatype StrOrList = Text(s: string) | Items(xs: seq<string>)

  /** Lines 15-18: a str becomes a one-element list, or [] when it is blank. */
  function AsList(v: StrOrList): (r: seq<string>)
    ensures v.Text? && IsBlank(v.s) ==> r == []
    ensures v.Text? && !IsBlank(v.s) ==> r == [v.s]
    ensures v.Items? ==> r == v.xs
  {
    match v
    case Text(s) => if IsBlank(s) then [] else [s]
    case Items(xs) => xs
  }

  /** What `sorted()` iterates over for the types argument, which is not
      converted: the str's characters, or the list's items. */
  function TypesItems(v: StrOrList): (r: seq<string>)
    ensures v.Items? ==> r == v.xs
    ensures v.Text? ==> |r| == |v.s| && forall i :: 0 <= i < |v.s| ==> r[i] == [v.s[i]]
  {
    match v
    case Text(s) => seq(|s|, i requires 0 <= i < |s| => [s[i]])
    case Items(xs) => xs
  }

  function Itself(s: string): string {
    s
  }

  /** `sorted(xs)` on strings. */
  function Sorted(xs: seq<string>): (r: seq<string>)
    ensures multiset(r) == multiset(xs)
    ensures SortedByKey(r, Itself)
  {
    SortAscCorrect(xs, Itself);
    SortAsc(xs, Itself)
  }

  /** Sorting strings does not depend on their order. */
  lemma SortedOrderIndependent(a: seq<string>, b: seq<string>)
    requires multiset(a) == multiset(b)
    ensures Sorted(a) == Sorted(b)
  {
    SortAscOrderIndependent(a, b, Itself);
  }

  /** Lines 24-29 for one feature: "Wifi" is renamed, so it never remains,
      and every other feature is kept as it is. */
  function AliasFeature(f: string): (r: string)
    ensures r != "Wifi"
    ensures f != "Wifi" ==> r == f
    ensures r == "Free Wifi" <==> f == "Wifi" || f == "Free Wifi"
  {
    if f == "Wifi" then "Free Wifi" else f
  }

  /** The loop at lines 24-29: "Wifi" is renamed "Free Wifi", every other
      feature is kept, in order. */
  method ProcessFeatures(features: seq<string>) returns (processed: seq<string>)
    ensures |processed| == |features|
    ensures forall i :: 0 <= i < |features| ==>
              processed[i] == if features[i] == "Wifi" then "Free Wifi" else features[i]
    ensures processed == Map(features, AliasFeature)
  {
    processed := [];
    var i := 0;
    while i < |features|
      invariant 0 <= i <= |features|
      invariant |processed| == i
      invariant forall j :: 0 <= j < i ==> processed[j] == AliasFeature(features[j])
    {
      if features[i] == "Wifi" {
        processed := processed + ["Free Wifi"];
      } else {
        processed := processed + [features[i]];
      }
      i := i + 1;
    }
    MapAt(features, AliasFeature);
  }

  /** A rating-rank dict as its items, in insertion order. */
  type RankItems = seq<(string, int)>

  /** Its keys are distinct, as the keys of a dict are. */
  predicate DistinctKeys(ranks: RankItems) {
    forall i, j :: 0 <= i < |ranks| && 0 <= j < |ranks| && ranks[i].0 == ranks[j].0 ==> i == j
  }

  function RankKey(item: (string, int)): string {
    item.0
  }

  function RankEntry(item: (string, int)): string {
    item.0 + ":" + IntToDecimal(item.1)
  }

  /** Line 33: the "key:value" entries sorted by key, joined by ",". */
  function RankingString(ranks: RankItems): string {
    Join(",", Map(SortAsc(ranks, RankKey), RankEntry))
  }

  /** The four strings the key is made of. */
  datatype Combination = Combination(types: string, diets: string, features: string, ranking: string)

  /** Lines 15-33. */
  function CombinationOf(types: StrOrList, diets: StrOrList, features: StrOrList, ranks: RankItems): Combination {
    var ds := AsList(diets);
    var fs := Map(AsList(features), AliasFeature);
    Combination(
      Join(", ", Sorted(TypesItems(types))),
      if |ds| > 0 then Join(", ", Sorted(ds)) else "None",
      if |fs| > 0 then Join(", ", Sorted(fs)) else "None",
      RankingString(ranks))
  }

  /** Lines 36-41: `repr` of the dict, fields in the order types, diets,
      features, ranking. */
  function KeyString(c: Combination): string {
    Field("{'types': ", c.types, Field(", 'diets': ", c.diets,
      Field(", 'features': ", c.features, Field(", 'ranking': ", c.ranking, "}"))))
  }

  /** One `'name': value` part of the key and the text after it. */
  function Field(tag: string, v: string, rest: string): (r: string)
    ensures tag <= r && |rest| < |r| && r[|r| - |rest|..] == rest
  {
    tag + PyRepr(v) + rest
  }

  /** A part with the same tag can be read back. */
  lemma FieldUnique(tag: string, v1: string, v2: string, rest1: string, rest2: string)
    requires Field(tag, v1, rest1) == Field(tag, v2, rest2)
    ensures v1 == v2 && rest1 == rest2
  {
    assert Field(tag, v1, rest1) == tag + (PyRepr(v1) + rest1);
    assert Field(tag, v2, rest2) == tag + (PyRepr(v2) + rest2);
    PrefixCancel(tag, PyRepr(v1) + rest1, PyRepr(v2) + rest2);
    ReprPrefix(v1, v2, rest1, rest2);
  }

  function CombinationKey(types: StrOrList, diets: StrOrList, features: StrOrList, ranks: RankItems): string {
    KeyString(CombinationOf(types, diets, features, ranks))
  }

  /** The key can be read back: two combinations with the same key are the
      same combination, so the stored clusters never mix two of them. */
  lemma KeyStringInjective(c1: Combination, c2: Combination)
    requires KeyString(c1) == KeyString(c2)
    ensures c1 == c2
  {
    var v1 := Field(", 'ranking': ", c1.ranking, "}");
    var v2 := Field(", 'ranking': ", c2.ranking, "}");
    var u1 := Field(", 'features': ", c1.features, v1);
    var u2 := Field(", 'features': ", c2.features, v2);
    var t1 := Field(", 'diets': ", c1.diets, u1);
    var t2 := Field(", 'diets': ", c2.diets, u2);
    FieldUnique("{'types': ", c1.types, c2.types, t1, t2);
    FieldUnique(", 'diets': ", c1.diets, c2.diets, u1, u2);
    FieldUnique(", 'features': ", c1.features, c2.features, v1, v2);
    FieldUnique(", 'ranking': ", c1.ranking, c2.ranking, "}", "}");
  }

  /** Two argument sets share a key exactly when they make the same four
      strings. */
  lemma CombinationKeyInjective(
    types1: StrOrList, diets1: StrOrList, features1: StrOrList, ranks1: RankItems,
    types2: StrOrList, diets2: StrOrList, features2: StrOrList, ranks2: RankItems)
    ensures CombinationKey(types1, diets1, features1, ranks1) == CombinationKey(types2, diets2, features2, ranks2)
            <==> CombinationOf(types1, diets1, features1, ranks1) == CombinationOf(types2, diets2, features2, ranks2)
  {
    if CombinationKey(types1, diets1, features1, ranks1) == CombinationKey(types2, diets2, features2, ranks2) {
      KeyStringInjective(CombinationOf(types1, diets1, features1, ranks1), CombinationOf(types2, diets2, features2, ranks2));
    }
  }

  /** The ranking part lists the entries in key order: it is the same for
      every arrangement of the items sorted by key. */
  lemma RankingInKeyOrder(ranks: RankItems, s: RankItems)
    requires DistinctKeys(ranks) && multiset(s) == multiset(ranks) && SortedByKey(s, RankKey)
    ensures RankingString(ranks) == Join(",", Map(s, RankEntry))
  {
    SortAscCorrect(ranks, RankKey);
    forall i, j | 0 <= i < |s| && 0 <= j < |s| && RankKey(s[i]) == RankKey(s[j])
      ensures s[i] == s[j]
    {
      assert s[i] in multiset(ranks) && s[j] in multiset(ranks);
      var p :| 0 <= p < |ranks| && ranks[p] == s[i];
      var q :| 0 <= q < |ranks| && ranks[q] == s[j];
    }
    SortedUnique(s, SortAsc(ranks, RankKey), RankKey);
  }

  /** The empty sentinels: no diet and no feature each read "None", no type
      reads "". */
  lemma Sentinels(types: StrOrList, diets: StrOrList, features: StrOrList, ranks: RankItems)
    ensures AsList(diets) == [] ==> CombinationOf(types, diets, features, ranks).diets == "None"
    ensures AsList(features) == [] ==> CombinationOf(types, diets, features, ranks).features == "None"
    ensures TypesItems(types) == [] ==> CombinationOf(types, diets, features, ranks).types == ""
  {
    if TypesItems(types) == [] {
      assert Sorted(TypesItems(types)) == [] by {
        assert |multiset(Sorted(TypesItems(types)))| == 0;
      }
    }
  }

  /** A blank str of diets or features counts as none. */
  lemma BlankIsNone(types: StrOrList, s: string, features: StrOrList, ranks: RankItems)
    requires IsBlank(s)
    ensures CombinationOf(types, Text(s), features, ranks).diets == "None"
    ensures CombinationOf(types, features, Text(s), ranks).features == "None"
  {
  }

  /** The key is the same whatever the order of the types, the diets, the
      features and the rank items. */
  lemma {:induction false} KeyOrderIndependent(
    types1: StrOrList, diets1: StrOrList, features1: StrOrList, ranks1: RankItems,
    types2: StrOrList, diets2: StrOrList, features2: StrOrList, ranks2: RankItems)
    requires multiset(TypesItems(types1)) == multiset(TypesItems(types2))
    requires multiset(AsList(diets1)) == multiset(AsList(diets2))
    requires multiset(AsList(features1)) == multiset(AsList(features2))
    requires multiset(ranks1) == multiset(ranks2) && DistinctKeys(ranks1)
    ensures CombinationKey(types1, diets1, features1, ranks1) == CombinationKey(types2, diets2, features2, ranks2)
  {
    CombinationOrderIndependent(types1, diets1, features1, ranks1, types2, diets2, features2, ranks2);
  }

  /** The four strings depend only on the multisets of the types, the
      diets, the features and the rank items (whose keys are distinct). */
  lemma {:induction false} CombinationOrderIndependent(
    types1: StrOrList, diets1: StrOrList, features1: StrOrList, ranks1: RankItems,
    types2: StrOrList, diets2: StrOrList, features2: StrOrList, ranks2: RankItems)
    requires multiset(TypesItems(types1)) == multiset(TypesItems(types2))
    requires multiset(AsList(diets1)) == multiset(AsList(diets2))
    requires multiset(AsList(features1)) == multiset(AsList(features2))
    requires multiset(ranks1) == multiset(ranks2) && DistinctKeys(ranks1)
    ensures CombinationOf(types1, diets1, features1, ranks1) == CombinationOf(types2, diets2, features2, ranks2)
  {
    var c1 := CombinationOf(types1, diets1, features1, ranks1);
    var c2 := CombinationOf(types2, diets2, features2, ranks2);
    SortedOrderIndependent(TypesItems(types1), TypesItems(types2));
    assert c1.types == c2.types;
    ListStringIndependent(AsList(diets1), AsList(diets2));
    assert c1.diets == c2.diets;
    MapMultiset(AsList(features1), AsList(features2), AliasFeature);
    ListStringIndependent(Map(AsList(features1), AliasFeature), Map(AsList(features2), AliasFeature));
    assert c1.features == c2.features;
    SortAscOrderIndependent(ranks1, ranks2, RankKey);
    assert c1.ranking == c2.ranking;
    assert c1 == c2;
  }

  /** The diets or features part of the key depends only on the multiset
      of its items. */
  lemma ListStringIndependent(a: seq<string>, b: seq<string>)
    requires multiset(a) == multiset(b)
    ensures (if |a| > 0 then Join(", ", Sorted(a)) else "None") == (if |b| > 0 then Join(", ", Sorted(b)) else "None")
  {
    SortedOrderIndependent(a, b);
    assert |a| == |multiset(a)| && |b| == |multiset(b)|;
  }

  /** "Wifi" and "Free Wifi" give the same key. */
  lemma WifiAlias(types: StrOrList, diets: StrOrList, ranks: RankItems)
    ensures CombinationKey(types, diets, Items(["Wifi"]), ranks) == CombinationKey(types, diets, Items(["Free Wifi"]), ranks)
  {
    assert Map(["Wifi"], AliasFeature) == ["Free Wifi"];
    assert Map(["Free Wifi"], AliasFeature) == ["Free Wifi"];
  }

  // ---------------------------------------------------------------------
  // Link resolution

  /** One link: the first restaurant whose `restaurant_link` is the link,
      sanitized, or nothing. */
  function ResolveOne(link: Value, restaurants: seq<Document>): (r: seq<Document>)
    ensures |r| <= 1
    ensures forall i :: 0 <= i < |r| ==> Clean(Dict(r[i]))
    ensures r == [] <==> FindOne(restaurants, "restaurant_link", link).None? || FindOne(restaurants, "restaurant_link", link).value == []
    ensures r != [] ==> r == [Sanitize(Dict(FindOne(restaurants, "restaurant_link", link).value)).entries]
  {
    match FindOne(restaurants, "restaurant_link", link)
    case Some(d) => if Truthy(Dict(d)) then [Sanitize(Dict(d)).entries] else []
    case None => []
  }

  /** The restaurants of the links, in link order, misses skipped. */
  function Resolved(links: seq<Value>, restaurants: seq<Document>): (r: seq<Document>)
    ensures |r| <= |links|
    decreases |links|
  {
    if |links| == 0 then []
    else Resolved(links[..|links| - 1], restaurants) + ResolveOne(links[|links| - 1], restaurants)
  }

  /** Every resolved restaurant is clean. */
  lemma {:induction false} ResolvedClean(links: seq<Value>, restaurants: seq<Document>)
    ensures forall i :: 0 <= i < |Resolved(links, restaurants)| ==> Clean(Dict(Resolved(links, restaurants)[i]))
    decreases |links|
  {
    if |links| > 0 {
      ResolvedClean(links[..|links| - 1], restaurants);
      var one := ResolveOne(links[|links| - 1], restaurants);
      assert forall i :: 0 <= i < |one| ==> Clean(Dict(one[i]));
    }
  }

  /** Resolving one more link appends what that link resolves to. */
  lemma ResolvedSnoc(a: seq<Value>, link: Value, restaurants: seq<Document>)
    ensures Resolved(a + [link], restaurants) == Resolved(a, restaurants) + ResolveOne(link, restaurants)
  {
    assert (a + [link])[..|a|] == a;
    assert (a + [link])[|a|] == link;
  }

  lemma ResolvedStep(links: seq<Value>, i: nat, restaurants: seq<Document>)
    requires i < |links|
    ensures Resolved(links[..i + 1], restaurants) == Resolved(links[..i], restaurants) + ResolveOne(links[i], restaurants)
  {
    assert links[..i + 1] == links[..i] + [links[i]];
    ResolvedSnoc(links[..i], links[i], restaurants);
  }

  /** Resolving distributes over concatenated link lists. */
  lemma {:induction false} ResolvedAppend(a: seq<Value>, b: seq<Value>, restaurants: seq<Document>)
    ensures Resolved(a + b, restaurants) == Resolved(a, restaurants) + Resolved(b, restaurants)
    decreases |b|
  {
    if |b| == 0 {
      assert a + b == a;
    } else {
      var init, last := b[..|b| - 1], b[|b| - 1];
      assert b == init + [last];
      assert a + b == (a + init) + [last];
      ResolvedAppend(a, init, restaurants);
      ResolvedSnoc(a + init, last, restaurants);
      ResolvedSnoc(init, last, restaurants);
      var ra, ri, o := Resolved(a, restaurants), Resolved(init, restaurants), ResolveOne(last, restaurants);
      assert Resolved(a + b, restaurants) == (ra + ri) + o;
      assert Resolved(b, restaurants) == ri + o;
      AppendAssoc(ra, ri, o);
    }
  }

  /** A link with no restaurant adds nothing. */
  lemma MissSkipped(a: seq<Value>, link: Value, restaurants: seq<Document>)
    requires forall i :: 0 <= i < |restaurants| ==> Get(restaurants[i], "restaurant_link") != Some(link)
    ensures Resolved(a + [link], restaurants) == Resolved(a, restaurants)
  {
    ResolvedSnoc(a, link, restaurants);
    FirstMatchFirst(restaurants, "restaurant_link", link);
  }

  /** A link whose first restaurant is a non-empty document appends that
      restaurant, sanitised. */
  lemma HitAppended(a: seq<Value>, link: Value, restaurants: seq<Document>, i: nat)
    requires i < |restaurants| && Get(restaurants[i], "restaurant_link") == Some(link) && restaurants[i] != []
    requires forall j :: 0 <= j < i ==> Get(restaurants[j], "restaurant_link") != Some(link)
    ensures Resolved(a + [link], restaurants) == Resolved(a, restaurants) + [Sanitize(Dict(restaurants[i])).entries]
  {
    ResolvedSnoc(a, link, restaurants);
    FirstMatchFirst(restaurants, "restaurant_link", link);
    var k := FirstMatch(restaurants, "restaurant_link", link);
    assert k >= 0 && k <= i;
    assert k == i;
  }

  /** The loop at lines 59-67. */
  method ResolveLinks(links: seq<Value>, restaurants: seq<Document>) returns (found: seq<Document>)
    ensures found == Resolved(links, restaurants)
  {
    found := [];
    var i := 0;
    while i < |links|
      invariant 0 <= i <= |links|
      invariant found == Resolved(links[..i], restaurants)
    {
      ResolvedStep(links, i, restaurants);
      var restaurant := FindOne(restaurants, "restaurant_link", links[i]);
      if restaurant.Some? && Truthy(Dict(restaurant.value)) {
        found := found + [Sanitize(Dict(restaurant.value)).entries];
      }
      i := i + 1;
    }
    assert links[..i] == links;
  }

  /** Line 49: the document stored under a combination key. */
  function CombinationDoc(city: string, key: string, db: Db): (r: Option<Document>)
    ensures var docs := Collection(db, Lower(city) + "_combinations");
            r.Some? <==> exists j :: 0 <= j < |docs| && Get(docs[j], "combination") == Some(Str(key))
    ensures r.Some? ==> r.value in Collection(db, Lower(city) + "_combinations")
                        && Get(r.value, "combination") == Some(Str(key))
  {
    FirstMatchFirst(Collection(db, Lower(city) + "_combinations"), "combination", Str(key));
    FindOne(Collection(db, Lower(city) + "_combinations"), "combination", Str(key))
  }

  /** `ast.literal_eval(field)` followed by `for link in ...` on a
      `restaurant_links` field: a str is parsed and must give something
      iterable; `literal_eval` on anything else raises ValueError
      ("malformed node or string"). */
  function ParsedLinks(field: Value, p: Parsers): (r: Result<seq<Value>, Failure>)
    ensures !field.Str? ==> r == Err(ParseError(ValueFailure))
    ensures field.Str? && p.literalEval(field.s).Err? ==> r == Err(ParseError(p.literalEval(field.s).error))
    ensures field.Str? && p.literalEval(field.s).Ok? ==>
              (r.Ok? <==> Iterate(p.literalEval(field.s).value).Some?)
              && (r.Ok? ==> r.value == Iterate(p.literalEval(field.s).value).value)
              && (r.Err? ==> r.error == TypeError)
  {
    match field
    case Str(s) =>
      (match p.literalEval(s)
       case Err(e) => Err(ParseError(e))
       case Ok(v) =>
         match Iterate(v)
         case None => Err(TypeError)
         case Some(links) => Ok(links))
    case _ => Err(ParseError(ValueFailure))
  }

  /** Lines 45-58: the stored links of a key. No document, a falsy one, or
      one without `restaurant_links` gives none; otherwise the field is
      parsed, and whatever the parser raises, or iterating a
      non-iterable result, escapes. */
  function StoredLinks(city: string, key: string, db: Db, p: Parsers): (r: Result<seq<Value>, Failure>)
    ensures CombinationDoc(city, key, db).None? ==> r == Ok([])
    ensures CombinationDoc(city, key, db).Some? && !Truthy(Dict(CombinationDoc(city, key, db).value)) ==> r == Ok([])
    ensures CombinationDoc(city, key, db).Some? && !HasKey(CombinationDoc(city, key, db).value, "restaurant_links") ==> r == Ok([])
    ensures CombinationDoc(city, key, db).Some? && Truthy(Dict(CombinationDoc(city, key, db).value))
            && HasKey(CombinationDoc(city, key, db).value, "restaurant_links") ==>
              r == ParsedLinks(Get(CombinationDoc(city, key, db).value, "restaurant_links").value, p)
  {
    match CombinationDoc(city, key, db)
    case None => Ok([])
    case Some(doc) =>
      if !Truthy(Dict(doc)) || !HasKey(doc, "restaurant_links") then Ok([])
      else ParsedLinks(Get(doc, "restaurant_links").value, p)
  }

  /** The restaurants stored under a combination key, in link order:
      the lookup of lines 44-69 once the key is built. */
  function TopRestaurants(city: string, key: string, db: Db, p: Parsers): (r: Result<seq<Document>, Failure>)
    ensures r.Ok? <==> StoredLinks(city, key, db, p).Ok?
    ensures r.Ok? ==> |r.value| <= |StoredLinks(city, key, db, p).value|
    ensures r.Ok? ==> r.value == Resolved(StoredLinks(city, key, db, p).value, Collection(db, Lower(city) + "_restaurants"))
    ensures r.Err? ==> r.error == StoredLinks(city, key, db, p).error
  {
    match StoredLinks(city, key, db, p)
    case Err(e) => Err(e)
    case Ok(links) => Ok(Resolved(links, Collection(db, Lower(city) + "_restaurants")))
  }

  /** Whatever is returned is clean. */
  lemma TopRestaurantsClean(city: string, key: string, db: Db, p: Parsers)
    requires TopRestaurants(city, key, db, p).Ok?
    ensures forall i :: 0 <= i < |TopRestaurants(city, key, db, p).value| ==> Clean(Dict(TopRestaurants(city, key, db, p).value[i]))
  {
    ResolvedClean(StoredLinks(city, key, db, p).value, Collection(db, Lower(city) + "_restaurants"));
  }

  /** `select_top_restaurants(city, chosen_types, chosen_diets,
      chosen_features, rating_rank_dict)` (lines 10-69). */
  method SelectTopRestaurants(city: string, types: StrOrList, diets: StrOrList, features: StrOrList, ranks: RankItems,
                              db: Db, p: Parsers) returns (r: Result<seq<Document>, Failure>)
    ensures r == TopRestaurants(city, CombinationKey(types, diets, features, ranks), db, p)
  {
    var ds := AsList(diets);
    var fs := AsList(features);
    var sortedTypes := Join(", ", Sorted(TypesItems(types)));
    var sortedDiets := if |ds| > 0 then Join(", ", Sorted(ds)) else "None";
    var processed := ProcessFeatures(fs);
    var sortedFeatures := if |processed| > 0 then Join(", ", Sorted(processed)) else "None";
    var key := KeyString(Combination(sortedTypes, sortedDiets, sortedFeatures, RankingString(ranks)));
    assert key == CombinationKey(types, diets, features, ranks);
    var links := StoredLinks(city, key, db, p);
    if links.Err? {
      return Err(links.error);
    }
    var found := ResolveLinks(links.value, Collection(db, Lower(city) + "_restaurants"));
    return Ok(found);
  }
}
