/** The restaurant selection page: the fetched restaurants with their tag
    flags coerced to booleans, a name search, a selection of at most three
    restaurants toggled by id, and the submit that sends the selection. */
module RestaurantSelection {
  import opened Wrappers
  import opened PyValues
  import opened Text
  import opened Lists
  import opened Store
  import opened UserRoutes

  const MaxSelected: int := 3

  /** The tag flags the page coerces with `!!`, in the order it lists
      them. */
  const Flags: seq<string> :=
    ["is_italian", "is_asian", "is_french", "is_mediterranean", "is_fast_food", "is_indian",
     "is_seafood", "is_steakhouse", "is_middle_eastern", "is_mexican", "is_british", "is_cafe",
     "is_vegan_options", "is_vegetarian_friendly", "is_gluten_free_options",
     "is_price_$", "is_price_$$", "is_price_$$$", "is_price_$$$$", "is_free_wifi"]

  // ---------------------------------------------------------------------
  // Flag coercion

  /** JavaScript truthiness of a property read; a missing property is
      `undefined`. Unlike Python, an empty array or object is truthy. */
  predicate JsTruthy(v: Option<Value>) {
    match v
    case None => false
    case Some(Null) => false
    case Some(Bool(b)) => b
    case Some(Int(i)) => i != 0
    case Some(Num(f)) => f != NaN && f != Finite(0.0)
    case Some(Str(s)) => |s| > 0
    case Some(_) => true
  }

  /** JavaScript truthiness against Python's: `undefined` and NaN are
      false, every array or object is true even when empty, and on the
      other values the two agree. */
  lemma JsTruthyRules(v: Option<Value>)
    ensures v.None? ==> !JsTruthy(v)
    ensures v == Some(Num(NaN)) ==> !JsTruthy(v)
    ensures v.Some? && (v.value.List? || v.value.Tuple? || v.value.Dict?) ==> JsTruthy(v)
    ensures v.Some? && !(v.value.List? || v.value.Tuple? || v.value.Dict?) && v.value != Num(NaN) ==>
              (JsTruthy(v) <==> Truthy(v.value))
  {
  }

  /** `{...r, f1: !!r.f1, ..., fn: !!r.fn}`: each flag, read from the
      original record, is written back as a boolean; a flag the record
      has keeps its place and a missing one is added at the end. */
  function Coerced(r: Document, fs: seq<string>): (c: Document)
    ensures forall f :: f in fs ==> Get(c, f) == Some(Bool(JsTruthy(Get(r, f))))
    ensures forall k :: k !in fs ==> Get(c, k) == Get(r, k)
    ensures Keys(r) <= Keys(c)
    decreases |fs|
  {
    if |fs| == 0 then r
    else
      var init, f := fs[..|fs| - 1], fs[|fs| - 1];
      var prev := Coerced(r, init);
      assert forall x :: x in fs <==> x in init || x == f;
      SetKeys(prev, f, Bool(JsTruthy(Get(r, f))));
      Set(prev, f, Bool(JsTruthy(Get(r, f))))
  }

  /** The coercion of one fetched record. */
  function CoerceFlags(r: Document): Document {
    Coerced(r, Flags)
  }

  /** Setting a key to the value it already has changes nothing. */
  lemma {:induction false} SetSame(d: Document, k: string, v: Value)
    requires Get(d, k) == Some(v)
    ensures Set(d, k, v) == d
  {
    if |d| > 0 && d[0].key != k {
      SetSame(d[1..], k, v);
    } else if |d| > 0 {
      assert d == [d[0]] + d[1..];
    }
  }

  /** A record whose flags are already booleans passes through the
      coercion unchanged. */
  lemma {:induction false} CoercedBooleans(r: Document, fs: seq<string>)
    requires forall f :: f in fs ==> Get(r, f).Some? && Get(r, f).value.Bool?
    ensures Coerced(r, fs) == r
    decreases |fs|
  {
    if |fs| > 0 {
      var init, f := fs[..|fs| - 1], fs[|fs| - 1];
      assert forall x :: x in init ==> x in fs;
      CoercedBooleans(r, init);
      assert JsTruthy(Get(r, f)) == Get(r, f).value.b;
      SetSame(r, f, Bool(JsTruthy(Get(r, f))));
    }
  }

  /** Coercing twice is coercing once. */
  lemma CoerceIdempotent(r: Document)
    ensures CoerceFlags(CoerceFlags(r)) == CoerceFlags(r)
  {
    CoercedBooleans(CoerceFlags(r), Flags);
  }

  /** `data.map(...)`: every fetched record coerced, in order. */
  function Processed(data: seq<Document>): (rs: seq<Document>)
    ensures |rs| == |data|
    ensures forall i :: 0 <= i < |data| ==> rs[i] == CoerceFlags(data[i])
  {
    seq(|data|, i requires 0 <= i < |data| => CoerceFlags(data[i]))
  }

  // ---------------------------------------------------------------------
  // Name search

  /** The record's `restaurant_name`, which the page's type declares a
      string. */
  predicate HasName(r: Document) {
    Get(r, "restaurant_name").Some? && Get(r, "restaurant_name").value.Str?
  }

  function Name(r: Document): string
    requires HasName(r)
  {
    Get(r, "restaurant_name").value.s
  }

  /** The coercion does not touch the name. */
  lemma CoercionKeepsName(r: Document)
    ensures Get(CoerceFlags(r), "restaurant_name") == Get(r, "restaurant_name")
  {
    NameNotFlag();
  }

  lemma NameNotFlag()
    ensures "restaurant_name" !in Flags
  {
    assert forall i :: 0 <= i < |Flags| ==> Flags[i][0] == 'i';
  }

  predicate NameMatches(r: Document, term: string) {
    HasName(r) && Contains(Lower(Name(r)), Lower(term))
  }

  function Matching(term: string): Document -> bool {
    r => NameMatches(r, term)
  }

  /** `filteredRestaurants`: the restaurants whose name contains the search
      term, ignoring letter case, in their order; an empty term keeps
      them all. */
  function FilteredByName(rs: seq<Document>, term: string): (r: seq<Document>)
    requires forall i :: 0 <= i < |rs| ==> HasName(rs[i])
    ensures Subseq(r, rs)
    ensures forall x :: x in r <==> x in rs && Contains(Lower(Name(x)), Lower(term))
    ensures term == "" ==> r == rs
  {
    var r := Filter(rs, Matching(term));
    assert forall x :: x in rs && Contains(Lower(Name(x)), Lower(term)) ==> x in r by {
      forall x | x in rs && Contains(Lower(Name(x)), Lower(term)) ensures x in r {
        var i :| 0 <= i < |rs| && rs[i] == x;
      }
    }
    assert term == "" ==> r == rs by {
      if term == "" {
        assert forall i :: 0 <= i < |rs| ==> Contains(Lower(Name(rs[i])), "");
        FilterAll(rs, Matching(term));
      }
    }
    r
  }

  // ---------------------------------------------------------------------
  // Selection

  function RestaurantId(r: Document): Option<Value> {
    Get(r, "id")
  }

  /** `prev.some((x) => x.id === r.id)` */
  predicate IsSelected(prev: seq<Document>, r: Document) {
    exists i :: 0 <= i < |prev| && RestaurantId(prev[i]) == RestaurantId(r)
  }

  predicate DistinctIds(s: seq<Document>) {
    forall i, j :: 0 <= i < j < |s| ==> RestaurantId(s[i]) != RestaurantId(s[j])
  }

  /** The filter condition `x.id !== r.id`. */
  function OtherId(id: Option<Value>): Document -> bool {
    x => RestaurantId(x) != id
  }

  /** Filtering keeps ids distinct. */
  lemma FilterDistinctIds(s: seq<Document>, p: Document -> bool)
    requires DistinctIds(s)
    ensures DistinctIds(Filter(s, p))
  {
    assert DistinctBy(s, RestaurantId);
    FilterDistinctBy(s, p, RestaurantId);
    assert DistinctBy(Filter(s, p), RestaurantId);
  }

  /** `toggleSelect`: a restaurant whose id is selected is unselected,
      another is added last while fewer than three are selected, and
      otherwise nothing changes. */
  function SelectToggled(prev: seq<Document>, r: Document): (res: seq<Document>)
    ensures IsSelected(res, r) <==> !IsSelected(prev, r) && |prev| < MaxSelected
    ensures IsSelected(prev, r) ==> Subseq(res, prev)
    ensures IsSelected(prev, r) ==> forall x :: x in res <==> x in prev && RestaurantId(x) != RestaurantId(r)
    ensures !IsSelected(prev, r) && |prev| < MaxSelected ==> res == prev + [r]
    ensures !IsSelected(prev, r) && |prev| >= MaxSelected ==> res == prev
    ensures DistinctIds(prev) ==> DistinctIds(res)
    ensures |prev| <= MaxSelected ==> |res| <= MaxSelected
  {
    if IsSelected(prev, r) then
      var res := Filter(prev, OtherId(RestaurantId(r)));
      assert forall x :: x in prev && RestaurantId(x) != RestaurantId(r) ==> x in res by {
        forall x | x in prev && RestaurantId(x) != RestaurantId(r) ensures x in res {
          var i :| 0 <= i < |prev| && prev[i] == x;
        }
      }
      assert !IsSelected(res, r);
      assert DistinctIds(prev) ==> DistinctIds(res) by {
        if DistinctIds(prev) {
          FilterDistinctIds(prev, OtherId(RestaurantId(r)));
        }
      }
      res
    else if |prev| < MaxSelected then
      var res := prev + [r];
      assert res[|prev|] == r;
      assert DistinctIds(prev) ==> DistinctIds(res) by {
        if DistinctIds(prev) {
          forall i, j | 0 <= i < j < |res| ensures RestaurantId(res[i]) != RestaurantId(res[j]) {
            assert res[i] == prev[i];
            if j < |prev| {
              assert res[j] == prev[j];
            }
          }
        }
      }
      res
    else prev
  }

  /** Removing the restaurants with one id, when only the last has it,
      leaves the others. */
  lemma {:induction false} FilterDropsLastId(s: seq<Document>, r: Document)
    requires !IsSelected(s, r)
    ensures Filter(s + [r], OtherId(RestaurantId(r))) == s
  {
    if |s| > 0 {
      assert (s + [r])[1..] == s[1..] + [r];
      assert !IsSelected(s[1..], r) by {
        forall i | 0 <= i < |s[1..]| ensures RestaurantId(s[1..][i]) != RestaurantId(r) {
          assert s[1..][i] == s[i + 1];
        }
      }
      FilterDropsLastId(s[1..], r);
      assert RestaurantId(s[0]) != RestaurantId(r);
    }
  }

  /** Selecting a restaurant and unselecting it again restores the
      selection. */
  lemma SelectToggleTwice(prev: seq<Document>, r: Document)
    requires !IsSelected(prev, r) && |prev| < MaxSelected
    ensures SelectToggled(SelectToggled(prev, r), r) == prev
  {
    FilterDropsLastId(prev, r);
  }

  /** The submit button is enabled with exactly three selected. */
  predicate CanSubmit(selected: seq<Document>) {
    |selected| == MaxSelected
  }

  /** Once submit is enabled, selecting another restaurant does nothing;
      before, every restaurant not selected can still be selected. */
  lemma SubmitGateIsCap(selected: seq<Document>, r: Document)
    requires |selected| <= MaxSelected && !IsSelected(selected, r)
    ensures CanSubmit(selected) <==> SelectToggled(selected, r) == selected
  {
    if !CanSubmit(selected) {
      assert |SelectToggled(selected, r)| == |selected| + 1;
    }
  }

  // ---------------------------------------------------------------------
  // Submit

  /** The ids as `JSON.stringify` writes them; a missing id becomes null. */
  function IdList(selected: seq<Document>): (ids: seq<Value>)
    ensures |ids| == |selected|
  {
    seq(|selected|, i requires 0 <= i < |selected| => RestaurantId(selected[i]).GetOr(Null))
  }

  /** The body `handleSubmit` posts: `{ids: [...]}`. */
  function SubmitBodyAsWritten(selected: seq<Document>): Value {
    Dict([Entry("ids", List(IdList(selected)))])
  }

  /** `submit_selection` refuses that body whatever was selected and
      whatever the store holds: it has neither `user_id` nor
      `selected_restaurants`. */
  lemma SubmitBodyRefused(selected: seq<Document>, db: Db)
    ensures CheckSelection(SubmitBodyAsWritten(selected), db) == Err(Error(400, "Missing user ID or selected restaurants"))
  {
    var d := SubmitBodyAsWritten(selected).entries;
    assert Get(d, "user_id") == None;
  }

  /** The body the selection handler reads: the user id of the page's
      route and the selected ids. */
  function SubmitBody(userId: string, selected: seq<Document>): Value {
    Dict([Entry("user_id", Str(userId)), Entry("selected_restaurants", List(IdList(selected)))])
  }

  /** With a user id and three selected restaurants, that body passes the
      missing-input check, and a selection that goes through carries the
      selected ids. */
  lemma SubmitBodyAccepted(userId: string, selected: seq<Document>, db: Db)
    requires |userId| > 0 && CanSubmit(selected)
    ensures CheckSelection(SubmitBody(userId, selected), db) != Err(Error(400, "Missing user ID or selected restaurants"))
    ensures CheckSelection(SubmitBody(userId, selected), db).Ok? ==>
              CheckSelection(SubmitBody(userId, selected), db).value.selected == List(IdList(selected))
  {
    SubmitBodyFields(userId, selected);
    MissingInputOnlyWhenMissing(SubmitBody(userId, selected), db);
  }

  lemma SubmitBodyFields(userId: string, selected: seq<Document>)
    ensures GetOr(SubmitBody(userId, selected).entries, "user_id", Null) == Str(userId)
    ensures GetOr(SubmitBody(userId, selected).entries, "selected_restaurants", List([])) == List(IdList(selected))
  {
    var d := SubmitBody(userId, selected).entries;
    GetFirst(d, "user_id", 0);
    GetFirst(d, "selected_restaurants", 1);
  }

  // ---------------------------------------------------------------------
  // The page state

  class Page {
    var restaurants: seq<Document>
    var selected: seq<Document>
    var searchTerm: string

    /** What every handler keeps: at most three selected, with distinct
        ids, and named restaurants. */
    predicate Valid()
      reads this
    {
      && |selected| <= MaxSelected && DistinctIds(selected)
      && forall i :: 0 <= i < |restaurants| ==> HasName(restaurants[i])
    }

    constructor ()
      ensures Valid()
      ensures restaurants == [] && selected == [] && searchTerm == ""
    {
      restaurants := [];
      selected := [];
      searchTerm := "";
    }

    /** The fetched restaurants arrive and are stored coerced. */
    method Loaded(data: seq<Document>)
      requires Valid() && forall i :: 0 <= i < |data| ==> HasName(data[i])
      modifies this
      ensures Valid()
      ensures restaurants == Processed(data)
      ensures selected == old(selected) && searchTerm == old(searchTerm)
    {
      var rs := Processed(data);
      forall i | 0 <= i < |rs| ensures HasName(rs[i]) {
        CoercionKeepsName(data[i]);
      }
      restaurants := rs;
    }

    method SetSearchTerm(t: string)
      requires Valid()
      modifies this
      ensures Valid()
      ensures searchTerm == t && restaurants == old(restaurants) && selected == old(selected)
    {
      searchTerm := t;
    }

    /** A click on a restaurant's select button. */
    method ToggleSelect(r: Document)
      requires Valid()
      modifies this
      ensures Valid()
      ensures selected == SelectToggled(old(selected), r)
      ensures restaurants == old(restaurants) && searchTerm == old(searchTerm)
    {
      selected := SelectToggled(selected, r);
    }

    /** The restaurants shown for the current search: those whose name
        contains the term, in their order, and all of them while the term
        is empty. */
    function Shown(): (r: seq<Document>)
      requires Valid()
      reads this
      ensures Subseq(r, restaurants)
      ensures forall x :: x in r <==> x in restaurants && Contains(Lower(Name(x)), Lower(searchTerm))
      ensures searchTerm == "" ==> r == restaurants
    {
      FilteredByName(restaurants, searchTerm)
    }

    /** The body `handleSubmit` posts for the current selection: the ids
        under "ids", which the selection route refuses whatever the store
        holds. */
    function Posted(): (b: Value)
      reads this
      ensures b.Dict? && Get(b.entries, "ids") == Some(List(IdList(selected)))
      ensures forall db :: CheckSelection(b, db) == Err(Error(400, "Missing user ID or selected restaurants"))
    {
      assert forall db :: CheckSelection(SubmitBodyAsWritten(selected), db)
                          == Err(Error(400, "Missing user ID or selected restaurants")) by {
        forall db ensures CheckSelection(SubmitBodyAsWritten(selected), db)
                          == Err(Error(400, "Missing user ID or selected restaurants")) {
          SubmitBodyRefused(selected, db);
        }
      }
      SubmitBodyAsWritten(selected)
    }

    /** The corrected body for the user of the page's route: the fields
        the selection route reads, which get past its input check once
        three restaurants are selected. */
    function CorrectedBody(userId: string): (b: Value)
      reads this
      ensures b.Dict? && GetOr(b.entries, "user_id", Null) == Str(userId)
      ensures GetOr(b.entries, "selected_restaurants", List([])) == List(IdList(selected))
      ensures |userId| > 0 && CanSubmit(selected) ==>
                forall db :: CheckSelection(b, db) != Err(Error(400, "Missing user ID or selected restaurants"))
    {
      SubmitBodyFields(userId, selected);
      assert |userId| > 0 && CanSubmit(selected) ==>
               forall db :: CheckSelection(SubmitBody(userId, selected), db)
                            != Err(Error(400, "Missing user ID or selected restaurants")) by {
        if |userId| > 0 && CanSubmit(selected) {
          forall db ensures CheckSelection(SubmitBody(userId, selected), db)
                            != Err(Error(400, "Missing user ID or selected restaurants")) {
            SubmitBodyAccepted(userId, selected, db);
          }
        }
      }
      SubmitBody(userId, selected)
    }
  }
}
