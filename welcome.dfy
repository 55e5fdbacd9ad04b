/** The onboarding form: six slides that collect the city, a nickname, one
    dietary option, up to five cuisines, an order of four dining priorities
    and a wifi answer, then post them as the preference body that
    `submit_preferences` turns into a stored document. */
module Welcome {
  import opened Wrappers
  import opened PyValues
  import opened Lists
  import opened Store
  import opened UserRoutes

  const TotalSlides: int := 6
  const MaxCuisines: int := 5

  /** The cuisine buttons, in the order they are shown. */
  const Cuisines: seq<string> :=
    ["British", "Asian", "Italian", "Indian", "Mediterranean", "Fast Food",
     "Seafood", "Cafe", "French", "Steakhouse", "Mexican", "Middle Eastern"]

  /** The cities of the city picker. */
  const Cities: seq<string> := ["Rome", "Paris", "London"]

  const InitialPriorities: seq<string> := ["food", "value", "atmosphere", "service"]

  const Vegetarian: string := "Vegetarian Friendly"
  const NoDiet: string := "None"

  /** The three values the dietary cell can hold; "" is "not chosen yet". */
  predicate IsDietary(d: string) {
    d == "" || d == Vegetarian || d == NoDiet
  }

  // ---------------------------------------------------------------------
  // Slides

  /** `nextSlide`: one slide on, staying on the last slide. */
  function NextIndex(i: int): (r: int)
    ensures 0 <= i < TotalSlides ==> 0 <= r < TotalSlides
    ensures i < TotalSlides - 1 ==> r == i + 1
    ensures i >= TotalSlides - 1 ==> r == TotalSlides - 1
  {
    if i + 1 < TotalSlides - 1 then i + 1 else TotalSlides - 1
  }

  /** `prevSlide`: one slide back, staying on the first slide. */
  function PrevIndex(i: int): (r: int)
    ensures 0 <= i < TotalSlides ==> 0 <= r < TotalSlides
    ensures i > 0 ==> r == i - 1
    ensures i <= 0 ==> r == 0
  {
    if 0 > i - 1 then 0 else i - 1
  }

  /** Back undoes forward except on the last slide, and forward undoes back
      except on the first. */
  lemma NextPrevInverse(i: int)
    requires 0 <= i < TotalSlides
    ensures i < TotalSlides - 1 ==> PrevIndex(NextIndex(i)) == i
    ensures i > 0 ==> NextIndex(PrevIndex(i)) == i
  {
  }

  /** `k` presses of Next from slide `i`. */
  function NextTimes(i: int, k: nat): int {
    if k == 0 then i else NextIndex(NextTimes(i, k - 1))
  }

  /** Pressing Next `k` times moves `k` slides on, but never past the
      last. */
  lemma {:induction false} NextTimesClamps(i: int, k: nat)
    requires 0 <= i < TotalSlides
    ensures NextTimes(i, k) == if i + k < TotalSlides then i + k else TotalSlides - 1
  {
    if k > 0 {
      NextTimesClamps(i, k - 1);
    }
  }

  // ---------------------------------------------------------------------
  // Toggles

  /** The filter condition `x !== c`. */
  function Unchosen(c: string): string -> bool {
    x => x != c
  }

  /** `toggleCuisine`: a chosen cuisine is removed, a new one is added last
      while fewer than five are chosen, and otherwise nothing changes. */
  function CuisineToggled(prev: seq<string>, c: string): (r: seq<string>)
    ensures c in r <==> c !in prev && |prev| < MaxCuisines
    ensures forall x :: x != c ==> (x in r <==> x in prev)
    ensures c in prev ==> Subseq(r, prev)
    ensures c !in prev && |prev| < MaxCuisines ==> r == prev + [c]
    ensures c !in prev && |prev| >= MaxCuisines ==> r == prev
    ensures NoDup(prev) ==> NoDup(r)
    ensures |prev| <= MaxCuisines ==> |r| <= MaxCuisines
  {
    if c in prev then
      var r := Filter(prev, Unchosen(c));
      assert forall x :: x in r ==> x in prev && x != c;
      assert forall x :: x in prev && x != c ==> x in r by {
        forall x | x in prev && x != c ensures x in r {
          var i :| 0 <= i < |prev| && prev[i] == x;
        }
      }
      assert NoDup(prev) ==> NoDup(r) by {
        if NoDup(prev) {
          FilterNoDup(prev, Unchosen(c));
        }
      }
      r
    else if |prev| < MaxCuisines then
      assert NoDup(prev) ==> NoDup(prev + [c]) by {
        if NoDup(prev) {
          forall i, j | 0 <= i < j < |prev| + 1 ensures (prev + [c])[i] != (prev + [c])[j] {
            if j == |prev| {
              assert (prev + [c])[i] == prev[i];
            }
          }
        }
      }
      prev + [c]
    else prev
  }

  /** Removing a value that occurs only last leaves the rest. */
  lemma {:induction false} FilterDropsLast(s: seq<string>, c: string)
    requires c !in s
    ensures Filter(s + [c], Unchosen(c)) == s
  {
    if |s| > 0 {
      assert (s + [c])[1..] == s[1..] + [c];
      FilterDropsLast(s[1..], c);
    }
  }

  /** Choosing a new cuisine and unchoosing it again restores the
      selection. */
  lemma CuisineToggleTwice(prev: seq<string>, c: string)
    requires c !in prev && |prev| < MaxCuisines
    ensures CuisineToggled(CuisineToggled(prev, c), c) == prev
  {
    FilterDropsLast(prev, c);
  }

  /** The two dietary buttons: clicking the chosen option clears it,
      clicking the other option chooses that one. */
  function DietToggled(d: string, option: string): (r: string)
    requires option == Vegetarian || option == NoDiet
    ensures r == option <==> d != option
    ensures r != option ==> r == ""
    ensures IsDietary(r)
  {
    if d == option then "" else option
  }

  /** The two wifi buttons: clicking the chosen answer clears it to null,
      clicking the other answer chooses it. */
  function WifiToggled(w: Option<bool>, b: bool): (r: Option<bool>)
    ensures r == Some(b) <==> w != Some(b)
    ensures r != Some(b) ==> r == None
  {
    if w == Some(b) then None else Some(b)
  }

  /** Next on the dietary slide is enabled only once an option is
      chosen. */
  predicate DietaryNextEnabled(d: string)
    ensures DietaryNextEnabled(d) && IsDietary(d) ==> d == Vegetarian || d == NoDiet
  {
    d != ""
  }

  /** Next on the cuisine slide is enabled only once a cuisine is chosen. */
  predicate CuisineNextEnabled(cs: seq<string>) {
    |cs| != 0
  }

  /** A click on a cuisine closes the cuisine slide's Next exactly when it
      unchooses the only cuisine chosen. */
  lemma CuisineGate(prev: seq<string>, c: string)
    requires NoDup(prev)
    ensures CuisineNextEnabled(CuisineToggled(prev, c)) <==> prev != [c]
  {
    if c in prev && prev != [c] {
      var k :| 0 <= k < |prev| && prev[k] == c;
      if k > 0 {
        assert prev[0] in CuisineToggled(prev, c);
      } else if |prev| > 1 {
        assert prev[1] in CuisineToggled(prev, c);
      }
    }
  }

  // ---------------------------------------------------------------------
  // Priority reorder

  /** `s.indexOf(x)` */
  function IndexOf(s: seq<string>, x: string): (k: int)
    ensures -1 <= k < |s|
    ensures k >= 0 ==> s[k] == x && x !in s[..k]
    ensures k < 0 <==> x !in s
  {
    if |s| == 0 then -1
    else if s[0] == x then 0
    else
      var k := IndexOf(s[1..], x);
      assert forall j :: 0 < j < |s| ==> s[j] == s[1..][j - 1];
      if k < 0 then -1
      else
        assert s[..k + 1] == [s[0]] + s[1..][..k];
        k + 1
  }

  /** Where `splice(start, ...)` begins on a list of length `len`: a
      negative start counts from the end, and both are clamped. */
  function SpliceStart(len: nat, start: int): (a: nat)
    ensures a <= len
    ensures 0 <= start <= len ==> a == start
  {
    if start < 0 then (if len + start < 0 then 0 else len + start)
    else if start < len then start else len
  }

  /** `s.splice(start, 1)`: the element at the start goes, if there is
      one. */
  function SpliceRemove(s: seq<string>, start: int): (r: seq<string>)
    ensures SpliceStart(|s|, start) < |s| ==> |r| == |s| - 1
    ensures 0 <= start < |s| ==> r == s[..start] + s[start + 1..]
    ensures start == -1 && |s| > 0 ==> r == s[..|s| - 1]
  {
    var a := SpliceStart(|s|, start);
    if a < |s| then s[..a] + s[a + 1..] else s
  }

  /** `s.splice(start, 0, x)`: `x` goes in at the start. */
  function SpliceInsert(s: seq<string>, start: int, x: string): (r: seq<string>)
    ensures |r| == |s| + 1
    ensures 0 <= start <= |s| ==> r[start] == x && r[..start] == s[..start] && r[start + 1..] == s[start..]
  {
    var a := SpliceStart(|s|, start);
    s[..a] + [x] + s[a..]
  }

  /** `s` without its element at `k`. */
  function Without(s: seq<string>, k: nat): seq<string>
    requires k < |s|
  {
    s[..k] + s[k + 1..]
  }

  /** The `onDrop` handler of the item at `idx`: unless nothing or the item
      itself is dropped, the dragged priority leaves its place and goes in
      at `idx`. */
  function Dropped(ps: seq<string>, dragged: string, idx: nat): (r: seq<string>)
    requires idx < |ps|
    ensures |r| == |ps|
    ensures dragged == "" || dragged == ps[idx] ==> r == ps
    ensures dragged != "" ==> r[idx] == dragged
  {
    if dragged != "" && dragged != ps[idx] then
      SpliceInsert(SpliceRemove(ps, IndexOf(ps, dragged)), idx, dragged)
    else ps
  }

  /** Taking the element at `from` out and putting it back in at `idx`
      permutes the list and keeps the order of the others. */
  lemma SpliceMoves(ps: seq<string>, from: nat, idx: nat)
    requires from < |ps| && idx < |ps|
    ensures var r := SpliceInsert(SpliceRemove(ps, from), idx, ps[from]);
            multiset(r) == multiset(ps) && Without(r, idx) == Without(ps, from)
  {
    var x := ps[from];
    var rest := SpliceRemove(ps, from);
    var r := SpliceInsert(rest, idx, x);
    assert rest == Without(ps, from);
    assert ps == ps[..from] + [x] + ps[from + 1..];
    assert multiset(ps) == multiset(rest) + multiset{x};
    assert r == rest[..idx] + [x] + rest[idx..];
    assert rest == rest[..idx] + rest[idx..];
    assert multiset(r) == multiset(rest) + multiset{x};
    assert Without(r, idx) == rest;
  }

  /** A priority dragged from the list moves to the drop place: the list is
      a permutation of the old one, and the other priorities keep their
      order. */
  lemma DropMoves(ps: seq<string>, dragged: string, idx: nat)
    requires idx < |ps| && dragged != "" && dragged in ps && NoDup(ps)
    ensures multiset(Dropped(ps, dragged, idx)) == multiset(ps)
    ensures Without(Dropped(ps, dragged, idx), idx) == Without(ps, IndexOf(ps, dragged))
  {
    var k := IndexOf(ps, dragged);
    if dragged != ps[idx] {
      SpliceMoves(ps, k, idx);
    } else {
      assert ps[k] == ps[idx];
    }
  }

  /** Distinct priorities stay distinct after any drop, even of a value
      that is not in the list. */
  lemma DropKeepsDistinct(ps: seq<string>, dragged: string, idx: nat)
    requires idx < |ps| && NoDup(ps)
    ensures NoDup(Dropped(ps, dragged, idx))
  {
    if dragged != "" && dragged != ps[idx] {
      RemoveDragged(ps, dragged);
      SpliceInsertNoDup(SpliceRemove(ps, IndexOf(ps, dragged)), idx, dragged);
    }
  }

  /** Taking the dragged value out of a list without repeats, or the last
      element when the value is foreign, leaves a list without repeats
      that lacks the value. */
  lemma RemoveDragged(ps: seq<string>, dragged: string)
    requires |ps| > 0 && NoDup(ps)
    ensures var rest := SpliceRemove(ps, IndexOf(ps, dragged));
            |rest| == |ps| - 1 && NoDup(rest) && dragged !in rest
  {
    var from := IndexOf(ps, dragged);
    var a := SpliceStart(|ps|, from);
    CutNoDup(ps, a);
    if from >= 0 {
      assert ps[a] == dragged;
    }
  }

  lemma SpliceInsertNoDup(s: seq<string>, idx: nat, x: string)
    requires idx <= |s| && NoDup(s) && x !in s
    ensures NoDup(SpliceInsert(s, idx, x))
  {
    InsertNoDup(s, idx, x);
  }

  /** A value that is not in the list pushes out the last priority, since
      `indexOf` gives -1 and `splice(-1, 1)` removes the last element. */
  lemma DropForeign(ps: seq<string>, dragged: string, idx: nat)
    requires idx < |ps| && dragged != "" && dragged !in ps
    ensures Dropped(ps, dragged, idx) == SpliceInsert(ps[..|ps| - 1], idx, dragged)
  {
  }

  // ---------------------------------------------------------------------
  // The submitted body

  function Strs(xs: seq<string>): (r: seq<Value>)
    ensures |r| == |xs|
    ensures forall i :: 0 <= i < |xs| ==> r[i] == Str(xs[i])
  {
    seq(|xs|, i requires 0 <= i < |xs| => Str(xs[i]))
  }

  function WifiJson(w: Option<bool>): Value {
    match w
    case None => Null
    case Some(b) => Bool(b)
  }

  /** The JSON body `handleSubmit` posts to the preferences endpoint: six
      fields, each read back as the form state it was built from. */
  function Payload(city: string, nickname: string, dietary: string, cuisines: seq<string>,
                   priorities: seq<string>, wifi: Option<bool>): (r: Document)
    ensures |r| == |PayloadKeys|
    ensures Get(r, "city") == Some(Str(city)) && Get(r, "nickname") == Some(Str(nickname))
    ensures Get(r, "dietary") == Some(Str(dietary))
    ensures Get(r, "cuisines") == Some(List(Strs(cuisines))) && Get(r, "priorities") == Some(List(Strs(priorities)))
    ensures Get(r, "wifiRequired") == Some(WifiJson(wifi))
  {
    var d := [Entry("city", Str(city)), Entry("nickname", Str(nickname)), Entry("dietary", Str(dietary)),
              Entry("cuisines", List(Strs(cuisines))), Entry("priorities", List(Strs(priorities))),
              Entry("wifiRequired", WifiJson(wifi))];
    assert forall j :: 0 <= j < |d| ==> d[j].key == PayloadKeys[j];
    PayloadGetAt(d, 0);
    PayloadGetAt(d, 1);
    PayloadGetAt(d, 2);
    PayloadGetAt(d, 3);
    PayloadGetAt(d, 4);
    PayloadGetAt(d, 5);
    d
  }

  const PayloadKeys: seq<string> := ["city", "nickname", "dietary", "cuisines", "priorities", "wifiRequired"]

  lemma PayloadKeysDistinct()
    ensures NoDup(PayloadKeys)
  {
    assert forall i :: 0 <= i < |PayloadKeys| ==> |PayloadKeys[i]| == [4, 8, 7, 8, 10, 12][i];
    assert PayloadKeys[1][0] != PayloadKeys[3][0];
  }

  /** Each key of the body finds its own entry. */
  lemma PayloadGetAt(d: Document, i: nat)
    requires |d| == |PayloadKeys| && forall j :: 0 <= j < |d| ==> d[j].key == PayloadKeys[j]
    requires i < |PayloadKeys|
    ensures Get(d, PayloadKeys[i]) == Some(d[i].val)
  {
    PayloadKeysDistinct();
    GetFirst(d, PayloadKeys[i], i);
  }

  /** The body's fields as `.get` reads them. */
  lemma PayloadGet(city: string, nickname: string, dietary: string, cuisines: seq<string>,
                   priorities: seq<string>, wifi: Option<bool>)
    ensures var d := Payload(city, nickname, dietary, cuisines, priorities, wifi);
            && GetOr(d, "city", Str("")) == Str(city)
            && GetOr(d, "nickname", Str("")) == Str(nickname)
            && GetOr(d, "dietary", Null) == Str(dietary)
            && GetOr(d, "cuisines", List([])) == List(Strs(cuisines))
            && GetOr(d, "priorities", List([])) == List(Strs(priorities))
            && GetOr(d, "wifiRequired", Null) == WifiJson(wifi)
  {
    PayloadEntry(city, nickname, dietary, cuisines, priorities, wifi, "city", 0);
    PayloadEntry(city, nickname, dietary, cuisines, priorities, wifi, "nickname", 1);
    PayloadEntry(city, nickname, dietary, cuisines, priorities, wifi, "dietary", 2);
    PayloadEntry(city, nickname, dietary, cuisines, priorities, wifi, "cuisines", 3);
    PayloadEntry(city, nickname, dietary, cuisines, priorities, wifi, "priorities", 4);
    PayloadEntry(city, nickname, dietary, cuisines, priorities, wifi, "wifiRequired", 5);
  }

  lemma PayloadEntry(city: string, nickname: string, dietary: string, cuisines: seq<string>,
                     priorities: seq<string>, wifi: Option<bool>, k: string, i: nat)
    requires i < |PayloadKeys| && k == PayloadKeys[i]
    ensures var d := Payload(city, nickname, dietary, cuisines, priorities, wifi);
            Get(d, k) == Some(d[i].val)
  {
    var d := Payload(city, nickname, dietary, cuisines, priorities, wifi);
    assert forall j :: 0 <= j < |d| ==> d[j].key == PayloadKeys[j];
    PayloadGetAt(d, i);
  }

  /** A body whose priorities are strings makes a preference document. */
  lemma StrPrioritiesDocument(d: Document, items: seq<Value>)
    requires GetOr(d, "priorities", List([])) == List(items)
    requires forall i :: 0 <= i < |items| ==> items[i].Str?
    ensures PreferenceDocument(d) == Ok(UserData(d, Positions(items)))
  {
    StrPrioritiesOk(d, items);
    StrPrioritiesValue(d, items);
  }

  lemma StrPrioritiesOk(d: Document, items: seq<Value>)
    requires GetOr(d, "priorities", List([])) == List(items)
    requires forall i :: 0 <= i < |items| ==> items[i].Str?
    ensures PreferenceDocument(d).Ok?
  {
    assert Iterate(GetOr(d, "priorities", List([]))) == Some(items);
  }

  lemma StrPrioritiesValue(d: Document, items: seq<Value>)
    requires GetOr(d, "priorities", List([])) == List(items)
    requires forall i :: 0 <= i < |items| ==> items[i].Str?
    requires PreferenceDocument(d).Ok?
    ensures PreferenceDocument(d).value == UserData(d, Positions(items))
  {
    assert Iterate(GetOr(d, "priorities", List([]))) == Some(items);
  }

  /** A non-empty object body that makes a document is stored as that
      document. */
  lemma ObjectBodyStored(d: Document)
    requires |d| > 0 && PreferenceDocument(d).Ok?
    ensures PreferencesToStore(Some(Dict(d))) == Ok(PreferenceDocument(d).value)
  {
    assert Truthy(Dict(d));
  }

  /** The form's body always reaches the store, as the `user_data` built
      from it. */
  lemma PayloadStored(city: string, nickname: string, dietary: string, cuisines: seq<string>,
                      priorities: seq<string>, wifi: Option<bool>)
    ensures var d := Payload(city, nickname, dietary, cuisines, priorities, wifi);
            PreferencesToStore(Some(Dict(d))) == Ok(UserData(d, Positions(Strs(priorities))))
  {
    PayloadGet(city, nickname, dietary, cuisines, priorities, wifi);
    StrPrioritiesDocument(Payload(city, nickname, dietary, cuisines, priorities, wifi), Strs(priorities));
    ObjectBodyStored(Payload(city, nickname, dietary, cuisines, priorities, wifi));
  }

  /** A body from the form is accepted: the stored document has the
      chosen city and cuisines, the dietary list holds "Vegetarian
      Friendly" exactly when it was chosen, the wifi list is ["Wifi"]
      exactly when wifi was required, and the priorities are numbered 1 to
      n in the order the user left them. */
  lemma PayloadAccepted(city: string, nickname: string, dietary: string, cuisines: seq<string>,
                        priorities: seq<string>, wifi: Option<bool>)
    requires IsDietary(dietary) && NoDup(priorities)
    ensures var body := Dict(Payload(city, nickname, dietary, cuisines, priorities, wifi));
            && PreferencesToStore(Some(body)).Ok?
            && var doc := PreferencesToStore(Some(body)).value;
            && Get(doc, "city") == Some(Str(city))
            && Get(doc, "cuisine_preferences") == Some(List(Strs(cuisines)))
            && Get(doc, "dietary_preferences") == Some(if dietary == Vegetarian then List([Str(Vegetarian)]) else List([]))
            && Get(doc, "wifi") == Some(if wifi == Some(true) then List([Str("Wifi")]) else List([]))
            && Get(doc, "dining_priority").Some? && Get(doc, "dining_priority").value.Dict?
            && |Get(doc, "dining_priority").value.entries| == |priorities|
            && forall i :: 0 <= i < |priorities| ==>
                 Get(doc, "dining_priority").value.entries[i] == Entry(priorities[i], Int(i + 1))
  {
    var d := Payload(city, nickname, dietary, cuisines, priorities, wifi);
    var dp := Positions(Strs(priorities));
    PayloadStored(city, nickname, dietary, cuisines, priorities, wifi);
    assert PreferencesToStore(Some(Dict(d))).value == UserData(d, dp);
    PayloadFields(city, nickname, dietary, cuisines, priorities, wifi);
    PayloadPriorities(priorities);
  }

  /** The fields of the document made from the form's body. */
  lemma PayloadFields(city: string, nickname: string, dietary: string, cuisines: seq<string>,
                      priorities: seq<string>, wifi: Option<bool>)
    requires IsDietary(dietary)
    ensures var doc := UserData(Payload(city, nickname, dietary, cuisines, priorities, wifi), Positions(Strs(priorities)));
            && Get(doc, "city") == Some(Str(city))
            && Get(doc, "cuisine_preferences") == Some(List(Strs(cuisines)))
            && Get(doc, "dietary_preferences") == Some(if dietary == Vegetarian then List([Str(Vegetarian)]) else List([]))
            && Get(doc, "wifi") == Some(if wifi == Some(true) then List([Str("Wifi")]) else List([]))
            && Get(doc, "dining_priority") == Some(Dict(Positions(Strs(priorities))))
  {
    var d := Payload(city, nickname, dietary, cuisines, priorities, wifi);
    PayloadGet(city, nickname, dietary, cuisines, priorities, wifi);
    UserDataFields(d, Positions(Strs(priorities)));
    if dietary == Vegetarian {
      assert DietaryList(Str(dietary)) == List([Str(Vegetarian)]);
    } else {
      assert !Truthy(Str(dietary)) || Str(dietary) == Str("None");
    }
    assert WifiList(WifiJson(wifi)) == if wifi == Some(true) then List([Str("Wifi")]) else List([]);
  }

  /** Distinct priorities from the form are numbered 1 to n in order. */
  lemma PayloadPriorities(priorities: seq<string>)
    requires NoDup(priorities)
    ensures |Positions(Strs(priorities))| == |priorities|
    ensures forall i :: 0 <= i < |priorities| ==> Positions(Strs(priorities))[i] == Entry(priorities[i], Int(i + 1))
  {
    var items := Strs(priorities);
    assert NoDup(items) by {
      forall i, j | 0 <= i < j < |items| ensures items[i] != items[j] {
        assert items[i].s == priorities[i] && items[j].s == priorities[j];
      }
    }
    PositionsDistinct(items);
  }

  // ---------------------------------------------------------------------
  // The form state

  /** The state cells of the form. */
  class Form {
    var slideIndex: int
    var city: string
    var nickname: string
    var dietary: string
    var selectedCuisines: seq<string>
    var priorities: seq<string>
    var wifiRequired: Option<bool>

    /** What every handler keeps: the slide is one of the six, the
        dietary cell one of its three values, at most five distinct
        cuisines from the buttons, and four distinct priorities. */
    predicate Valid()
      reads this
    {
      && 0 <= slideIndex < TotalSlides
      && city in Cities
      && IsDietary(dietary)
      && |selectedCuisines| <= MaxCuisines && NoDup(selectedCuisines)
      && (forall i :: 0 <= i < |selectedCuisines| ==> selectedCuisines[i] in Cuisines)
      && |priorities| == |InitialPriorities| && NoDup(priorities)
    }

    constructor ()
      ensures Valid()
      ensures slideIndex == 0 && city == "Rome" && nickname == "" && dietary == ""
      ensures selectedCuisines == [] && priorities == InitialPriorities && wifiRequired == None
    {
      slideIndex := 0;
      city := "Rome";
      nickname := "";
      dietary := "";
      selectedCuisines := [];
      priorities := InitialPriorities;
      wifiRequired := None;
    }

    method NextSlide()
      requires Valid()
      modifies this
      ensures Valid()
      ensures slideIndex == NextIndex(old(slideIndex))
      ensures city == old(city) && nickname == old(nickname) && dietary == old(dietary)
      ensures selectedCuisines == old(selectedCuisines) && priorities == old(priorities) && wifiRequired == old(wifiRequired)
    {
      slideIndex := NextIndex(slideIndex);
    }

    method PrevSlide()
      requires Valid()
      modifies this
      ensures Valid()
      ensures slideIndex == PrevIndex(old(slideIndex))
      ensures city == old(city) && nickname == old(nickname) && dietary == old(dietary)
      ensures selectedCuisines == old(selectedCuisines) && priorities == old(priorities) && wifiRequired == old(wifiRequired)
    {
      slideIndex := PrevIndex(slideIndex);
    }

    /** The city picker offers the three cities. */
    method SetCity(c: string)
      requires Valid() && c in Cities
      modifies this
      ensures Valid()
      ensures city == c
      ensures slideIndex == old(slideIndex) && nickname == old(nickname) && dietary == old(dietary)
      ensures selectedCuisines == old(selectedCuisines) && priorities == old(priorities) && wifiRequired == old(wifiRequired)
    {
      city := c;
    }

    method SetNickname(n: string)
      requires Valid()
      modifies this
      ensures Valid()
      ensures nickname == n
      ensures slideIndex == old(slideIndex) && city == old(city) && dietary == old(dietary)
      ensures selectedCuisines == old(selectedCuisines) && priorities == old(priorities) && wifiRequired == old(wifiRequired)
    {
      nickname := n;
    }

    /** A click on the button of cuisine `c`. */
    method ToggleCuisine(c: string)
      requires Valid() && c in Cuisines
      modifies this
      ensures Valid()
      ensures selectedCuisines == CuisineToggled(old(selectedCuisines), c)
      ensures slideIndex == old(slideIndex) && city == old(city) && nickname == old(nickname)
      ensures dietary == old(dietary) && priorities == old(priorities) && wifiRequired == old(wifiRequired)
    {
      var next := CuisineToggled(selectedCuisines, c);
      assert forall i :: 0 <= i < |next| ==> next[i] in Cuisines by {
        forall i | 0 <= i < |next| ensures next[i] in Cuisines {
          if next[i] != c {
            assert next[i] in selectedCuisines;
            var j :| 0 <= j < |selectedCuisines| && selectedCuisines[j] == next[i];
          }
        }
      }
      selectedCuisines := next;
    }

    /** A click on one of the two dietary buttons. */
    method ToggleDietary(option: string)
      requires Valid() && (option == Vegetarian || option == NoDiet)
      modifies this
      ensures Valid()
      ensures dietary == DietToggled(old(dietary), option)
      ensures slideIndex == old(slideIndex) && city == old(city) && nickname == old(nickname)
      ensures selectedCuisines == old(selectedCuisines) && priorities == old(priorities) && wifiRequired == old(wifiRequired)
    {
      dietary := DietToggled(dietary, option);
    }

    /** A click on the "yes" (`b` true) or "no" wifi button. */
    method ToggleWifi(b: bool)
      requires Valid()
      modifies this
      ensures Valid()
      ensures wifiRequired == WifiToggled(old(wifiRequired), b)
      ensures slideIndex == old(slideIndex) && city == old(city) && nickname == old(nickname)
      ensures dietary == old(dietary) && selectedCuisines == old(selectedCuisines) && priorities == old(priorities)
    {
      wifiRequired := WifiToggled(wifiRequired, b);
    }

    /** A drop of the priority `dragged` on the item at `idx`: a copy of the
        list is spliced twice and becomes the new list. */
    method DropPriority(dragged: string, idx: nat)
      requires Valid() && idx < |priorities|
      modifies this
      ensures Valid()
      ensures priorities == Dropped(old(priorities), dragged, idx)
      ensures slideIndex == old(slideIndex) && city == old(city) && nickname == old(nickname)
      ensures dietary == old(dietary) && selectedCuisines == old(selectedCuisines) && wifiRequired == old(wifiRequired)
    {
      DropKeepsDistinct(priorities, dragged, idx);
      if dragged != "" && dragged != priorities[idx] {
        var from := IndexOf(priorities, dragged);
        var updated := priorities;
        updated := SpliceRemove(updated, from);
        updated := SpliceInsert(updated, idx, dragged);
        priorities := updated;
      }
    }

    /** The body `handleSubmit` sends: the six fields of the form's
        current state, which the preferences route stores under the same
        city and cuisines while the form is in a state its handlers
        keep. */
    function SubmittedBody(): (b: Value)
      reads this
      ensures b == Dict(Payload(city, nickname, dietary, selectedCuisines, priorities, wifiRequired))
      ensures b.Dict? && Get(b.entries, "city") == Some(Str(city))
      ensures Get(b.entries, "cuisines") == Some(List(Strs(selectedCuisines)))
      ensures Get(b.entries, "priorities") == Some(List(Strs(priorities)))
      ensures Valid() ==>
                && PreferencesToStore(Some(b)).Ok?
                && Get(PreferencesToStore(Some(b)).value, "city") == Some(Str(city))
                && Get(PreferencesToStore(Some(b)).value, "cuisine_preferences") == Some(List(Strs(selectedCuisines)))
    {
      assert Valid() ==>
               var doc := PreferencesToStore(Some(Dict(Payload(city, nickname, dietary, selectedCuisines, priorities, wifiRequired))));
               && doc.Ok? && Get(doc.value, "city") == Some(Str(city))
               && Get(doc.value, "cuisine_preferences") == Some(List(Strs(selectedCuisines))) by {
        if Valid() {
          PayloadAccepted(city, nickname, dietary, selectedCuisines, priorities, wifiRequired);
        }
      }
      Dict(Payload(city, nickname, dietary, selectedCuisines, priorities, wifiRequired))
    }
  }

  /** Whatever the user did, the form's body is stored, for a city that
      has a restaurant collection. */
  lemma FormBodyAccepted(f: Form)
    requires f.Valid()
    ensures PreferencesToStore(Some(f.SubmittedBody())).Ok?
    ensures f.city in CityCollections
  {
    PayloadAccepted(f.city, f.nickname, f.dietary, f.selectedCuisines, f.priorities, f.wifiRequired);
  }
}
