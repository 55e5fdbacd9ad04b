/** The feedback text of a restaurant (`top_pairs_total`, a Python literal
    listing (phrase, count, sentiment) triples): its normalisation, the
    positive-expression count, the ranking of a city's restaurants by that
    count (`get_positive_restaurants`) and the rewriting of the field into
    clean triples (`sanitize_top_pairs`). */
module Feedback {
  import opened Wrappers
  import opened PyValues
  import opened Text
  import opened Lists
  import opened Store

  const TopPairsField := "top_pairs_total"

  /** A normalised feedback item `[phrase, count, sentiment]`. */
  datatype Triple = Triple(phrase: Value, count: int, sentiment: Float)

  /** The elements of a list or a tuple. */
  function Elements(v: Value): seq<Value>
    requires v.List? || v.Tuple?
  {
    if v.List? then v.items else v.elems
  }

  /** One item of the parsed text, as the loop body normalises it: only a
      list or tuple of three is kept; a None count or sentiment stands for
      0 or 0.0; a count or sentiment that `int()` or `float()` rejects turns
      the whole item into `[phrase, 0, 0.0]`. */
  function NormalizeItem(item: Value, p: Parsers): (r: Option<Triple>)
    ensures r.Some? <==> (item.List? || item.Tuple?) && |Elements(item)| == 3
    ensures r.Some? ==> r.value.phrase == Elements(item)[0]
    ensures r.Some? && Elements(item)[1].Null? && Elements(item)[2].Null? ==>
              r.value == Triple(Elements(item)[0], 0, Finite(0.0))
    ensures r.Some? && Elements(item)[1].Int? && Elements(item)[2].Num? ==>
              r.value == Triple(Elements(item)[0], Elements(item)[1].i, Elements(item)[2].f)
    ensures r.Some? && (Elements(item)[1].Null? || PyInt(Elements(item)[1], p).Some?)
                    && (Elements(item)[2].Null? || PyFloat(Elements(item)[2], p).Some?) ==>
              r.value == Triple(Elements(item)[0],
                                if Elements(item)[1].Null? then 0 else PyInt(Elements(item)[1], p).value,
                                if Elements(item)[2].Null? then Finite(0.0) else PyFloat(Elements(item)[2], p).value)
    ensures r.Some? && !Elements(item)[1].Null? && PyInt(Elements(item)[1], p).None? ==>
              r.value == Triple(Elements(item)[0], 0, Finite(0.0))
    ensures r.Some? && !Elements(item)[2].Null? && PyFloat(Elements(item)[2], p).None? ==>
              r.value == Triple(Elements(item)[0], 0, Finite(0.0))
  {
    if !(item.List? || item.Tuple?) || |Elements(item)| != 3 then None
    else
      var xs := Elements(item);
      var count := if xs[1].Null? then Some(0) else PyInt(xs[1], p);
      var sentiment := if xs[2].Null? then Some(Finite(0.0)) else PyFloat(xs[2], p);
      if count.Some? && sentiment.Some? then Some(Triple(xs[0], count.value, sentiment.value))
      else Some(Triple(xs[0], 0, Finite(0.0)))
  }

  function Kept(item: Value, p: Parsers): seq<Triple> {
    match NormalizeItem(item, p)
    case Some(t) => [t]
    case None => []
  }

  /** The normalised list the loop builds, item by item. */
  function Normalized(items: seq<Value>, p: Parsers): (r: seq<Triple>)
    ensures |r| <= |items|
    decreases |items|
  {
    if |items| == 0 then []
    else Normalized(items[..|items| - 1], p) + Kept(items[|items| - 1], p)
  }

  /** Normalising distributes over concatenation: each item is handled on
      its own, and the kept ones stay in order. */
  lemma {:induction false} NormalizedAppend(a: seq<Value>, b: seq<Value>, p: Parsers)
    ensures Normalized(a + b, p) == Normalized(a, p) + Normalized(b, p)
    decreases |b|
  {
    if |b| == 0 {
      assert a + b == a;
    } else {
      var b' := b[..|b| - 1];
      assert (a + b)[..|a + b| - 1] == a + b';
      NormalizedAppend(a, b', p);
    }
  }

  /** When every item is a list or tuple of three, every item yields one
      triple. */
  lemma {:induction false} NormalizedAllWellFormed(items: seq<Value>, p: Parsers)
    requires forall i :: 0 <= i < |items| ==> (items[i].List? || items[i].Tuple?) && |Elements(items[i])| == 3
    ensures |Normalized(items, p)| == |items|
    decreases |items|
  {
    if |items| > 0 {
      NormalizedAllWellFormed(items[..|items| - 1], p);
    }
  }

  /** The loop at lines 193-203 (and 272-282). */
  method NormalizeItems(items: seq<Value>, p: Parsers) returns (feedback: seq<Triple>)
    ensures feedback == Normalized(items, p)
  {
    feedback := [];
    var i := 0;
    while i < |items|
      invariant 0 <= i <= |items|
      invariant feedback == Normalized(items[..i], p)
    {
      var item := items[i];
      if item.List? || item.Tuple? {
        var xs := Elements(item);
        if |xs| == 3 {
          var count := if xs[1].Null? then Some(0) else PyInt(xs[1], p);
          var sentiment := if xs[2].Null? then Some(Finite(0.0)) else PyFloat(xs[2], p);
          if count.Some? && sentiment.Some? {
            feedback := feedback + [Triple(xs[0], count.value, sentiment.value)];
          } else {
            feedback := feedback + [Triple(xs[0], 0, Finite(0.0))];
          }
        }
      }
      assert items[..i + 1][..i] == items[..i];
      i := i + 1;
    }
    assert items[..i] == items;
  }

  /** An item counts as a positive expression: count at least 2 and
      sentiment above 0.15. */
  predicate Positive(t: Triple) {
    t.count >= 2 && FloatGreater(t.sentiment, 0.15)
  }

  /** A NaN sentiment is never positive, because NaN compares false with
      every number. */
  lemma NaNNeverPositive(t: Triple)
    requires t.sentiment == NaN
    ensures !Positive(t)
  {
  }

  /** Every item is positive exactly when the count equals the number of
      items. */
  lemma {:induction false} AllPositive(feedback: seq<Triple>)
    ensures PositiveCount(feedback) == |feedback| <==> forall i :: 0 <= i < |feedback| ==> Positive(feedback[i])
  {
    if |feedback| > 0 {
      AllPositive(feedback[1..]);
      assert forall i :: 0 < i < |feedback| ==> feedback[i] == feedback[1..][i - 1];
    }
  }

  /** Lines 210-212: the number of positive items. */
  function PositiveCount(feedback: seq<Triple>): (n: nat)
    ensures n <= |feedback|
  {
    if |feedback| == 0 then 0
    else (if Positive(feedback[0]) then 1 else 0) + PositiveCount(feedback[1..])
  }

  /** The count adds up over concatenation, one per positive item: it is
      the number of positive items. */
  lemma {:induction false} PositiveCountAppend(a: seq<Triple>, b: seq<Triple>)
    ensures PositiveCount(a + b) == PositiveCount(a) + PositiveCount(b)
  {
    if |a| == 0 {
      assert a + b == b;
    } else {
      assert (a + b)[1..] == a[1..] + b;
      PositiveCountAppend(a[1..], b);
    }
  }

  /** An item with a count below 2 never adds to the count, whatever its
      sentiment. */
  lemma LowCountNeverPositive(feedback: seq<Triple>, t: Triple)
    requires t.count < 2
    ensures PositiveCount(feedback + [t]) == PositiveCount(feedback)
  {
    PositiveCountAppend(feedback, [t]);
  }

  /** What the parsing step makes of one restaurant. */
  datatype Parsed =
    | Skip                     // the text does not parse: the restaurant is left out
    | Abort                    // the parsed value cannot be iterated: the whole call fails
    | Scored(feedback: seq<Triple>)

  /** The exceptions of `ast.literal_eval` that line 205 catches. */
  predicate CaughtByScores(e: ParseFailure) {
    e.SyntaxFailure? || e.ValueFailure?
  }

  /** Lines 186-207 for one restaurant: no text field or a non-str field
      reads as no feedback; a ValueError or SyntaxError of the parser skips
      the restaurant, and any other exception escapes to the handler at
      line 225, which abandons the loop. */
  function FeedbackOf(d: Document, p: Parsers): (r: Parsed)
    ensures !(Get(d, TopPairsField).Some? && Get(d, TopPairsField).value.Str?) ==> r == Scored([])
    ensures r.Skip? <==> Get(d, TopPairsField).Some? && Get(d, TopPairsField).value.Str?
                         && p.literalEval(Get(d, TopPairsField).value.s).Err?
                         && CaughtByScores(p.literalEval(Get(d, TopPairsField).value.s).error)
    ensures r.Abort? <==> Get(d, TopPairsField).Some? && Get(d, TopPairsField).value.Str?
                          && match p.literalEval(Get(d, TopPairsField).value.s)
                             case Err(e) => !CaughtByScores(e)
                             case Ok(v) => Iterate(v).None?
    ensures Get(d, TopPairsField).Some? && Get(d, TopPairsField).value.Str?
            && p.literalEval(Get(d, TopPairsField).value.s).Ok?
            && Iterate(p.literalEval(Get(d, TopPairsField).value.s).value).Some? ==>
              r == Scored(Normalized(Iterate(p.literalEval(Get(d, TopPairsField).value.s).value).value, p))
  {
    match Get(d, TopPairsField)
    case Some(Str(s)) =>
      (match p.literalEval(s)
       case Err(e) => if CaughtByScores(e) then Skip else Abort
       case Ok(v) =>
         match Iterate(v)
         case None => Abort
         case Some(items) => Scored(Normalized(items, p)))
    case _ => Scored([])
  }

  /** A restaurant's positive count, for one whose text parsed: at most
      the number of its feedback items. */
  function Score(d: Document, p: Parsers): (n: nat)
    requires FeedbackOf(d, p).Scored?
    ensures n <= |FeedbackOf(d, p).feedback|
  {
    PositiveCount(FeedbackOf(d, p).feedback)
  }

  /** The `restaurant_scores` list the loop at lines 184-215 builds; None
      when one restaurant's parsed text cannot be iterated and the loop is
      abandoned. */
  function Scores(docs: seq<Document>, p: Parsers): (r: Option<seq<(Document, real)>>)
    ensures r.None? <==> exists i :: 0 <= i < |docs| && FeedbackOf(docs[i], p).Abort?
    ensures r.Some? ==> |r.value| <= |docs|
    decreases |docs|
  {
    if |docs| == 0 then Some([])
    else
      var init := docs[..|docs| - 1];
      var last := docs[|docs| - 1];
      assert forall i :: 0 <= i < |init| ==> docs[i] == init[i];
      var rest := Scores(init, p);
      if rest.None? then None
      else
        match FeedbackOf(last, p)
        case Abort => None
        case Skip => rest
        case Scored(fb) => Some(rest.value + [(last, PositiveCount(fb) as real)])
  }

  /** One more restaurant of the loop, after a prefix that did not abort. */
  lemma ScoresStep(docs: seq<Document>, i: nat, p: Parsers)
    requires i < |docs| && Scores(docs[..i], p).Some?
    ensures Scores(docs[..i + 1], p) ==
              match FeedbackOf(docs[i], p)
              case Abort => None
              case Skip => Scores(docs[..i], p)
              case Scored(fb) => Some(Scores(docs[..i], p).value + [(docs[i], PositiveCount(fb) as real)])
  {
    assert docs[..i + 1][..i] == docs[..i] && docs[..i + 1][i] == docs[i];
  }

  /** Every scored pair is a restaurant of the list whose text parsed, with
      its positive count. */
  lemma {:induction false} ScoresSound(docs: seq<Document>, p: Parsers)
    requires Scores(docs, p).Some?
    ensures forall j :: 0 <= j < |Scores(docs, p).value| ==>
              var pair := Scores(docs, p).value[j];
              pair.0 in docs && FeedbackOf(pair.0, p).Scored? && pair.1 == Score(pair.0, p) as real
    decreases |docs|
  {
    if |docs| > 0 {
      var init := docs[..|docs| - 1];
      ScoresSound(init, p);
      assert forall d :: d in init ==> d in docs;
    }
  }

  /** Every restaurant whose text parsed is scored. */
  lemma {:induction false} ScoresComplete(docs: seq<Document>, p: Parsers)
    requires Scores(docs, p).Some?
    ensures forall i :: 0 <= i < |docs| && FeedbackOf(docs[i], p).Scored? ==>
              exists j :: 0 <= j < |Scores(docs, p).value| && Scores(docs, p).value[j].0 == docs[i]
    decreases |docs|
  {
    if |docs| > 0 {
      var init := docs[..|docs| - 1];
      ScoresComplete(init, p);
      var sc := Scores(docs, p).value;
      var si := Scores(init, p).value;
      assert forall j :: 0 <= j < |si| ==> sc[j] == si[j];
      forall i | 0 <= i < |docs| && FeedbackOf(docs[i], p).Scored?
        ensures exists j :: 0 <= j < |sc| && sc[j].0 == docs[i]
      {
        if i < |docs| - 1 {
          assert docs[i] == init[i];
          var j :| 0 <= j < |si| && si[j].0 == init[i];
          assert sc[j].0 == docs[i];
        } else {
          assert sc[|sc| - 1].0 == docs[i];
        }
      }
    }
  }

  /** Once a restaurant has aborted the loop, later ones cannot rescue it. */
  lemma ScoresPrefixAbort(docs: seq<Document>, k: nat, p: Parsers)
    requires k <= |docs|
    requires Scores(docs[..k], p).None?
    ensures Scores(docs, p).None?
  {
    var i :| 0 <= i < k && FeedbackOf(docs[..k][i], p).Abort?;
    assert docs[..k][i] == docs[i];
  }

  /** `get_positive_restaurants(limit, city)` as a value: an unknown city
      or an abandoned loop gives []; otherwise the restaurants sorted by
      decreasing count, ties in collection order, cut at `limit`. */
  function PositiveRanking(limit: int, city: string, db: Db, p: Parsers): (r: seq<Document>)
    ensures city !in CityCollections ==> r == []
    ensures 0 <= limit ==> |r| <= limit
    ensures r != [] ==> city in CityCollections
    ensures r != [] ==> forall i :: 0 <= i < |r| ==>
              r[i] in Collection(db, CityCollections[city]) && FeedbackOf(r[i], p).Scored?
    ensures forall i, j :: 0 <= i < j < |r| ==> Score(r[i], p) >= Score(r[j], p)
  {
    if city !in CityCollections then []
    else
      var docs := Collection(db, CityCollections[city]);
      match Scores(docs, p)
      case None => []
      case Some(sc) =>
        RankedTop(docs, p, sc, limit);
        Firsts(SlicePrefix(SortDesc(sc), limit))
  }

  /** The restaurants of a cut of the ranking: at most `limit`, stored,
      scored, by decreasing score. */
  lemma RankedTop(docs: seq<Document>, p: Parsers, sc: seq<(Document, real)>, limit: int)
    requires Scores(docs, p) == Some(sc)
    ensures 0 <= limit ==> |Firsts(SlicePrefix(SortDesc(sc), limit))| <= limit
    ensures forall i :: 0 <= i < |Firsts(SlicePrefix(SortDesc(sc), limit))| ==>
              Firsts(SlicePrefix(SortDesc(sc), limit))[i] in docs
              && FeedbackOf(Firsts(SlicePrefix(SortDesc(sc), limit))[i], p).Scored?
    ensures forall i, j :: 0 <= i < j < |Firsts(SlicePrefix(SortDesc(sc), limit))| ==>
              Score(Firsts(SlicePrefix(SortDesc(sc), limit))[i], p) >= Score(Firsts(SlicePrefix(SortDesc(sc), limit))[j], p)
  {
    RankedSound(docs, p);
    var ranked := SortDesc(sc);
    var top := SlicePrefix(ranked, limit);
    assert forall i :: 0 <= i < |top| ==> top[i] == ranked[i];
    var r := Firsts(top);
    assert forall i :: 0 <= i < |r| ==> r[i] == ranked[i].0;
  }

  /** The sorted scores pair stored restaurants that scored with their
      own scores, largest first. */
  lemma RankedSound(docs: seq<Document>, p: Parsers)
    requires Scores(docs, p).Some?
    ensures var ranked := SortDesc(Scores(docs, p).value);
            && (forall i :: 0 <= i < |ranked| ==> ranked[i].0 in docs && FeedbackOf(ranked[i].0, p).Scored?)
            && (forall i, j :: 0 <= i < j < |ranked| ==> Score(ranked[i].0, p) >= Score(ranked[j].0, p))
  {
    var sc := Scores(docs, p).value;
    ScoresSound(docs, p);
    SortDescCorrect(sc);
    var ranked := SortDesc(sc);
    forall i | 0 <= i < |ranked|
      ensures ranked[i].0 in docs && FeedbackOf(ranked[i].0, p).Scored? && ranked[i].1 == Score(ranked[i].0, p) as real
    {
      assert ranked[i] in multiset(sc);
      var j :| 0 <= j < |sc| && sc[j] == ranked[i];
    }
  }

  /** The length of the ranking is `min(limit, scored)` for a non-negative
      limit. */
  lemma PositiveRankingLength(limit: nat, city: string, db: Db, p: Parsers)
    requires city in CityCollections
    requires Scores(Collection(db, CityCollections[city]), p).Some?
    ensures |PositiveRanking(limit, city, db, p)|
            == var n := |Scores(Collection(db, CityCollections[city]), p).value|; if limit <= n then limit else n
  {
    SortDescCorrect(Scores(Collection(db, CityCollections[city]), p).value);
  }

  /** The ranking is the top of the stable sort of the scored restaurants
      by count: `min(limit, scored)` of them, by decreasing count; no
      scored restaurant left out counts more than one kept; and among
      equal counts the ones kept are the first in collection order, in
      that order. */
  lemma PositiveRankingTop(limit: nat, city: string, db: Db, p: Parsers)
    requires city in CityCollections
    requires Scores(Collection(db, CityCollections[city]), p).Some?
    ensures var sc := Scores(Collection(db, CityCollections[city]), p).value;
            var kept := SlicePrefix(SortDesc(sc), limit);
            && PositiveRanking(limit, city, db, p) == Firsts(kept)
            && |kept| == (if limit <= |sc| then limit else |sc|)
            && SortedDesc(kept)
            && multiset(kept) <= multiset(sc)
            && (forall x, j :: x in multiset(sc) - multiset(kept) && 0 <= j < |kept| ==> x.1 <= kept[j].1)
            && (forall k :: WithKey(kept, k) <= WithKey(sc, k))
  {
    TopPrefix(Scores(Collection(db, CityCollections[city]), p).value, limit);
  }

  /** A parser exception other than ValueError or SyntaxError on any
      restaurant of the city abandons the whole ranking. */
  lemma UncaughtParseEmpties(limit: int, city: string, db: Db, p: Parsers, i: nat)
    requires city in CityCollections && i < |Collection(db, CityCollections[city])|
    requires var d := Collection(db, CityCollections[city])[i];
             Get(d, TopPairsField).Some? && Get(d, TopPairsField).value.Str?
             && p.literalEval(Get(d, TopPairsField).value.s).Err?
             && !CaughtByScores(p.literalEval(Get(d, TopPairsField).value.s).error)
    ensures PositiveRanking(limit, city, db, p) == []
  {
    var docs := Collection(db, CityCollections[city]);
    assert FeedbackOf(docs[i], p).Abort?;
  }

  /** `get_positive_restaurants(limit, city)` (lines 172-228). */
  method GetPositiveRestaurants(limit: int, city: string, db: Db, p: Parsers) returns (out: seq<Document>)
    ensures out == PositiveRanking(limit, city, db, p)
  {
    if city !in CityCollections {
      return [];
    }
    var docs := Collection(db, CityCollections[city]);
    var scores: seq<(Document, real)> := [];
    var i := 0;
    while i < |docs|
      invariant 0 <= i <= |docs|
      invariant Scores(docs[..i], p) == Some(scores)
    {
      var d := docs[i];
      ScoresStep(docs, i, p);
      var fb: seq<Triple> := [];
      var text := Get(d, TopPairsField);
      if text.Some? && text.value.Str? {
        var parsed := p.literalEval(text.value.s);
        if parsed.Err? {
          if !CaughtByScores(parsed.error) {
            ScoresPrefixAbort(docs, i + 1, p);
            return [];
          }
          i := i + 1;
          continue;
        }
        var items := Iterate(parsed.value);
        if items.None? {
          ScoresPrefixAbort(docs, i + 1, p);
          return [];
        }
        fb := NormalizeItems(items.value, p);
      }
      scores := scores + [(d, PositiveCount(fb) as real)];
      i := i + 1;
    }
    assert docs[..i] == docs;
    out := Firsts(SlicePrefix(SortDesc(scores), limit));
  }

  // ---------------------------------------------------------------------
  // sanitize_top_pairs

  /** Lines 260-265: the replacements that turn Python literal text into
      JSON-like text. */
  function ReplaceChain(s: string): (r: string)
    ensures '\'' !in r && '(' !in r && ')' !in r
  {
    var s1 := Replace(s, "None", "null");
    var s2 := Replace(s1, "none", "null");
    var s3 := Replace(s2, "'", "\"");
    var s4 := Replace(s3, "(", "[");
    var s5 := Replace(s4, ")", "]");
    ReplaceRemoves(s2, '\'', "\"");
    ReplaceKeepsAbsent(s3, "(", "[", '\'');
    ReplaceRemoves(s3, '(', "[");
    ReplaceKeepsAbsent(s4, ")", "]", '\'');
    ReplaceKeepsAbsent(s4, ")", "]", '(');
    ReplaceRemoves(s4, ')', "]");
    s5
  }

  /** A normalised triple as the list stored back. */
  function TripleValue(t: Triple): Value {
    List([t.phrase, Int(t.count), Num(t.sentiment)])
  }

  /** The shape of a stored triple: `[phrase, int, float]`. */
  predicate IsTripleValue(v: Value) {
    v.List? && |v.items| == 3 && v.items[1].Int? && v.items[2].Num?
  }

  function TripleValues(ts: seq<Triple>): (r: seq<Value>)
    ensures |r| == |ts|
    ensures forall i :: 0 <= i < |ts| ==> r[i] == TripleValue(ts[i])
  {
    seq(|ts|, i requires 0 <= i < |ts| => TripleValue(ts[i]))
  }

  /** The exceptions of `eval` that line 285 catches. */
  predicate CaughtBySanitize(e: ParseFailure) {
    e.SyntaxFailure? || e.ValueFailure? || e.TypeFailure?
  }

  /** The new value of the field: the normalised triples of the evaluated
      text, or [] when evaluating raises an exception line 285 catches or
      gives something that cannot be iterated; any other exception of
      `eval` escapes. */
  function SanitizedField(s: string, p: Parsers): (r: Result<seq<Value>, ParseFailure>)
    ensures r.Err? <==> p.evalLiteral(ReplaceChain(s)).Err? && !CaughtBySanitize(p.evalLiteral(ReplaceChain(s)).error)
    ensures r.Err? ==> r.error == p.evalLiteral(ReplaceChain(s)).error
    ensures r.Ok? ==> forall i :: 0 <= i < |r.value| ==> IsTripleValue(r.value[i])
    ensures p.evalLiteral(ReplaceChain(s)).Ok? && Iterate(p.evalLiteral(ReplaceChain(s)).value).Some? ==>
              r == Ok(TripleValues(Normalized(Iterate(p.evalLiteral(ReplaceChain(s)).value).value, p)))
    ensures p.evalLiteral(ReplaceChain(s)).Ok? && Iterate(p.evalLiteral(ReplaceChain(s)).value).None? ==> r == Ok([])
    ensures p.evalLiteral(ReplaceChain(s)).Err? && CaughtBySanitize(p.evalLiteral(ReplaceChain(s)).error) ==> r == Ok([])
  {
    match p.evalLiteral(ReplaceChain(s))
    case Err(e) => if CaughtBySanitize(e) then Ok([]) else Err(e)
    case Ok(v) =>
      match Iterate(v)
      case None => Ok([])
      case Some(items) =>
        var ts := Normalized(items, p);
        Ok(TripleValues(ts))
  }

  /** `sanitize_top_pairs(restaurant)` as a value: a str field is replaced
      by its sanitized list, every other field and a restaurant without a
      str field are left as they are; an exception that escapes `eval`
      escapes the call. */
  function SanitizedTopPairs(restaurant: Document, p: Parsers): (r: Result<Document, ParseFailure>)
    ensures !(HasKey(restaurant, TopPairsField) && Get(restaurant, TopPairsField).value.Str?) ==> r == Ok(restaurant)
    ensures HasKey(restaurant, TopPairsField) && Get(restaurant, TopPairsField).value.Str? ==>
              (r.Err? <==> SanitizedField(Get(restaurant, TopPairsField).value.s, p).Err?)
    ensures HasKey(restaurant, TopPairsField) && Get(restaurant, TopPairsField).value.Str? && r.Ok? ==>
              Get(r.value, TopPairsField) == Some(List(SanitizedField(Get(restaurant, TopPairsField).value.s, p).value))
    ensures r.Ok? ==> forall k :: k != TopPairsField ==> Get(r.value, k) == Get(restaurant, k)
  {
    match Get(restaurant, TopPairsField)
    case Some(Str(s)) =>
      (match SanitizedField(s, p)
       case Err(e) => Err(e)
       case Ok(field) => Ok(Set(restaurant, TopPairsField, List(field))))
    case _ => Ok(restaurant)
  }

  /** `sanitize_top_pairs(restaurant)` (lines 255-288). */
  method SanitizeTopPairs(restaurant: Document, p: Parsers) returns (r: Result<Document, ParseFailure>)
    ensures r == SanitizedTopPairs(restaurant, p)
  {
    r := Ok(restaurant);
    var text := Get(restaurant, TopPairsField);
    if text.Some? && text.value.Str? {
      var sanitized := ReplaceChain(text.value.s);
      var raw := p.evalLiteral(sanitized);
      if raw.Err? {
        if !CaughtBySanitize(raw.error) {
          return Err(raw.error);
        }
        r := Ok(Set(restaurant, TopPairsField, List([])));
        return;
      }
      var items := Iterate(raw.value);
      if items.None? {
        r := Ok(Set(restaurant, TopPairsField, List([])));
        return;
      }
      var triples := NormalizeItems(items.value, p);
      r := Ok(Set(restaurant, TopPairsField, List(TripleValues(triples))));
    }
  }
}
