/** The selection step of `test_recommendations`: the filtered restaurants
    not already chosen by the user are ranked by similarity to the user's
    profile; the best two, one random restaurant and one random 5-rated
    restaurant of the city make up the test set. */
module TestSelection {
  import opened Wrappers
  import opened PyValues
  import opened Lists
  import opened Store
  import opened PreferenceFilter

  /** The values of the compared fields, in the fixed column order; a
      missing field reads as 0 (lines 311-313 and 321-323). */
  function Vector(d: Document): (v: seq<Value>)
    ensures |v| == |BinaryFloatColumns|
    ensures forall i :: 0 <= i < |v| ==> v[i] == GetOr(d, BinaryFloatColumns[i], Int(0))
  {
    seq(|BinaryFloatColumns|, i requires 0 <= i < |BinaryFloatColumns| => GetOr(d, BinaryFloatColumns[i], Int(0)))
  }

  /** The ObjectIds of a list of documents (`{r["_id"] for r in docs}`). */
  function Ids(docs: seq<Document>): (r: set<OidHex>)
    ensures forall h :: h in r <==> exists i :: 0 <= i < |docs| && IdOf(docs[i]) == Some(h)
  {
    if |docs| == 0 then {}
    else
      var rest := Ids(docs[1..]);
      assert forall i :: 0 < i < |docs| ==> docs[i] == docs[1..][i - 1];
      (if IdOf(docs[0]).Some? then {IdOf(docs[0]).value} else {}) + rest
  }

  predicate IdIn(d: Document, ids: set<OidHex>) {
    IdOf(d).Some? && IdOf(d).value in ids
  }

  /** What the step produces: the ranking, the two prefixes, the two random
      picks and the combined list. */
  datatype TestSet = TestSet(
    ranked: seq<(Document, real)>,
    top2: seq<Document>,
    top4: seq<Document>,
    randomPick: Option<Document>,
    topRatedPick: Option<Document>,
    matching: seq<Document>)

  predicate RatedFive(d: Document) {
    EqualsNumber(GetOr(d, "general_rating", Null), 5.0)
  }

  /** `similarity_scores` before the sort: each remaining restaurant with
      its similarity, in order. */
  function Similarities(userVector: seq<Value>, remaining: seq<Document>, sim: (seq<Value>, seq<Value>) -> real)
    : (r: seq<(Document, real)>)
    ensures |r| == |remaining|
    ensures forall i :: 0 <= i < |r| ==> r[i] == (remaining[i], sim(userVector, Vector(remaining[i])))
  {
    seq(|remaining|, i requires 0 <= i < |remaining| => (remaining[i], sim(userVector, Vector(remaining[i]))))
  }

  /** Lines 318-327: the similarity of each remaining restaurant, then the
      stable sort by decreasing similarity: restaurants of equal
      similarity keep the order of `remaining`. */
  method RankBySimilarity(userVector: seq<Value>, remaining: seq<Document>, sim: (seq<Value>, seq<Value>) -> real)
    returns (ranked: seq<(Document, real)>)
    ensures SortedDesc(ranked)
    ensures multiset(Firsts(ranked)) == multiset(remaining)
    ensures forall i :: 0 <= i < |ranked| ==> ranked[i].0 in remaining && ranked[i].1 == sim(userVector, Vector(ranked[i].0))
    ensures forall k :: WithKey(ranked, k) == WithKey(Similarities(userVector, remaining, sim), k)
  {
    var scores: seq<(Document, real)> := [];
    var i := 0;
    while i < |remaining|
      invariant 0 <= i <= |remaining|
      invariant Firsts(scores) == remaining[..i]
      invariant forall j :: 0 <= j < i ==> scores[j].1 == sim(userVector, Vector(remaining[j]))
    {
      var r := remaining[i];
      scores := scores + [(r, sim(userVector, Vector(r)))];
      assert Firsts(scores) == remaining[..i + 1];
      i := i + 1;
    }
    assert Firsts(scores) == remaining;
    assert scores == Similarities(userVector, remaining, sim);
    SortDescCorrect(scores);
    ranked := SortDesc(scores);
    FirstsMultiset(ranked, scores);
    forall k | 0 <= k < |ranked|
      ensures ranked[k].0 in remaining && ranked[k].1 == sim(userVector, Vector(ranked[k].0))
    {
      assert ranked[k] in multiset(scores);
      var j :| 0 <= j < |scores| && scores[j] == ranked[k];
      assert scores[j].0 == remaining[j];
    }
  }

  /** `choice(pool) if pool else None`: some member of the pool, which one
      not being modelled. */
  method Choose(pool: seq<Document>) returns (pick: Option<Document>)
    ensures pick.None? <==> |pool| == 0
    ensures pick.Some? ==> pick.value in pool
  {
    if |pool| == 0 {
      return None;
    }
    assert pool[0] in pool;
    var d :| d in pool;
    return Some(d);
  }

  /** One of lines 354-357: the pick is appended when it is a truthy
      (non-empty) restaurant not yet in the list. */
  function AppendNew(m: seq<Document>, pick: Option<Document>): (r: seq<Document>)
    ensures |m| <= |r| <= |m| + 1 && r[..|m|] == m
    ensures |r| == |m| + 1 ==> Some(r[|m|]) == pick && r[|m|] !in m
    ensures pick.Some? && pick.value != [] ==> pick.value in r
    ensures NoDup(m) ==> NoDup(r)
  {
    if pick.Some? && Truthy(Dict(pick.value)) && pick.value !in m then
      var r := m + [pick.value];
      assert r[..|m|] == m;
      r
    else
      assert m[..|m|] == m;
      m
  }

  /** Lines 353-357: the best two, then each pick if it is a truthy
      restaurant not yet in the list. */
  function Combine(top2: seq<Document>, randomPick: Option<Document>, topRatedPick: Option<Document>): (m: seq<Document>)
    ensures |top2| <= |m| <= |top2| + 2 && m[..|top2|] == top2
    ensures forall i :: |top2| <= i < |m| ==> Some(m[i]) == randomPick || Some(m[i]) == topRatedPick
    ensures forall i :: |top2| <= i < |m| ==> m[i] !in m[..i]
    ensures randomPick.Some? && randomPick.value != [] ==> randomPick.value in m
    ensures topRatedPick.Some? && topRatedPick.value != [] ==> topRatedPick.value in m
    ensures NoDup(top2) ==> NoDup(m)
  {
    var m1 := AppendNew(top2, randomPick);
    var m2 := AppendNew(m1, topRatedPick);
    assert m2[..|top2|] == m1[..|top2|] == top2;
    assert |m1| == |top2| + 1 ==> m2[|top2|] == m1[|top2|] && m2[..|top2|] == top2;
    m2
  }

  /** Lines 339-350: the candidates are the city's restaurants outside the
      excluded ids; one random candidate, and one random candidate rated 5. */
  method PickFromCity(docs: seq<Document>, excluded: set<OidHex>)
    returns (randomPick: Option<Document>, topRatedPick: Option<Document>)
    requires StoredDocs(docs)
    ensures randomPick.Some? ==> randomPick.value in docs && !IdIn(randomPick.value, excluded) && randomPick.value != []
    ensures topRatedPick.Some? ==> topRatedPick.value in docs && !IdIn(topRatedPick.value, excluded) && topRatedPick.value != []
    ensures topRatedPick.Some? ==> RatedFive(topRatedPick.value)
    ensures randomPick.None? <==> forall i :: 0 <= i < |docs| ==> IdIn(docs[i], excluded)
    ensures topRatedPick.None? <==> forall i :: 0 <= i < |docs| ==> IdIn(docs[i], excluded) || !RatedFive(docs[i])
  {
    var candidates := Filter(docs, d => !IdIn(d, excluded));
    randomPick := Choose(candidates);
    if randomPick.None? {
      FilterEmpty(docs, d => !IdIn(d, excluded));
    }
    var highlyRated := Filter(candidates, d => RatedFive(d));
    topRatedPick := Choose(highlyRated);
    if topRatedPick.None? {
      FilterEmpty(highlyRated, d => RatedFive(d));
      forall k | 0 <= k < |docs| ensures IdIn(docs[k], excluded) || !RatedFive(docs[k]) {
        if !IdIn(docs[k], excluded) {
          assert docs[k] in candidates;
        }
      }
    }
    StoredNonEmpty(docs, randomPick);
    StoredNonEmpty(docs, topRatedPick);
  }

  /** Lines 311-357. `filtered` is what the preference filter returned,
      `selected` the user's chosen restaurants as stored, `cityDocs` the
      city's collection (None when the city has none) and `sim` the cosine
      similarity of two vectors. */
  method SelectTestRestaurants(averages: Document, filtered: seq<Document>, selected: seq<Document>,
                               cityDocs: Option<seq<Document>>, sim: (seq<Value>, seq<Value>) -> real)
    returns (t: TestSet)
    requires cityDocs.Some? ==> StoredDocs(cityDocs.value)
    // the ranking: every remaining restaurant once, by decreasing similarity
    ensures SortedDesc(t.ranked)
    ensures multiset(Firsts(t.ranked)) == multiset(Filter(filtered, r => !IdIn(r, Ids(selected))))
    ensures forall i :: 0 <= i < |t.ranked| ==> t.ranked[i].1 == sim(Vector(averages), Vector(t.ranked[i].0))
    ensures forall i :: 0 <= i < |t.ranked| ==> t.ranked[i].0 in filtered && !IdIn(t.ranked[i].0, Ids(selected))
    ensures forall k :: WithKey(t.ranked, k)
                        == WithKey(Similarities(Vector(averages), Filter(filtered, r => !IdIn(r, Ids(selected))), sim), k)
    // the prefixes
    ensures t.top2 == Firsts(SlicePrefix(t.ranked, 2)) && t.top4 == Firsts(SlicePrefix(t.ranked, 4))
    // the pools
    ensures t.randomPick.Some? ==>
              cityDocs.Some? && t.randomPick.value in cityDocs.value && !IdIn(t.randomPick.value, Ids(t.top2 + selected))
    ensures t.topRatedPick.Some? ==>
              cityDocs.Some? && t.topRatedPick.value in cityDocs.value && !IdIn(t.topRatedPick.value, Ids(t.top2 + selected))
    ensures t.topRatedPick.Some? ==> RatedFive(t.topRatedPick.value)
    ensures t.randomPick.None? <==>
              cityDocs.None? || forall i :: 0 <= i < |cityDocs.value| ==> IdIn(cityDocs.value[i], Ids(t.top2 + selected))
    ensures t.topRatedPick.None? <==>
              cityDocs.None? || forall i :: 0 <= i < |cityDocs.value| ==>
                                  IdIn(cityDocs.value[i], Ids(t.top2 + selected)) || !RatedFive(cityDocs.value[i])
    // the combined list
    ensures t.matching == Combine(t.top2, t.randomPick, t.topRatedPick)
    ensures |t.matching| <= 4
    ensures t.randomPick.Some? ==> t.randomPick.value in t.matching
    ensures t.topRatedPick.Some? ==> t.topRatedPick.value in t.matching
    ensures NoDup(filtered) ==> NoDup(t.matching)
  {
    var chosen := Ids(selected);
    var remaining := Filter(filtered, r => !IdIn(r, chosen));
    var ranked := RankBySimilarity(Vector(averages), remaining, sim);
    var top2 := Firsts(SlicePrefix(ranked, 2));
    var top4 := Firsts(SlicePrefix(ranked, 4));
    var excluded := Ids(top2 + selected);

    var randomPick: Option<Document> := None;
    var topRatedPick: Option<Document> := None;
    if cityDocs.Some? {
      randomPick, topRatedPick := PickFromCity(cityDocs.value, excluded);
    }
    t := TestSet(ranked, top2, top4, randomPick, topRatedPick, Combine(top2, randomPick, topRatedPick));
    if NoDup(filtered) {
      TopDistinct(filtered, remaining, ranked, r => !IdIn(r, chosen));
    }
  }

  /** The best two of a ranking of distinct restaurants are distinct. */
  lemma TopDistinct(filtered: seq<Document>, remaining: seq<Document>, ranked: seq<(Document, real)>, q: Document -> bool)
    requires NoDup(filtered) && remaining == Filter(filtered, q)
    requires multiset(Firsts(ranked)) == multiset(remaining)
    ensures NoDup(Firsts(SlicePrefix(ranked, 2)))
  {
    FilterNoDup(filtered, q);
    NoDupPermutation(remaining, Firsts(ranked));
    var top := Firsts(SlicePrefix(ranked, 2));
    forall i | 0 <= i < |top| ensures top[i] == Firsts(ranked)[i] {
    }
  }

  /** A stored restaurant has an `_id`, so it is a non-empty dict. */
  lemma StoredNonEmpty(docs: seq<Document>, pick: Option<Document>)
    requires StoredDocs(docs)
    requires pick.Some? ==> pick.value in docs
    ensures pick.Some? ==> pick.value != []
  {
    if pick.Some? {
      var i :| 0 <= i < |docs| && docs[i] == pick.value;
      assert HasKey(docs[i], "_id");
    }
  }
}
