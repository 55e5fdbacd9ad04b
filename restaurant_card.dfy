/** The restaurant card: the star rating drawn from a number, the feedback
    chips coloured by sentiment, and the filter that picks which feedback
    the card shows. */
module RestaurantCard {
  import opened Wrappers
  import opened PyValues
  import opened Lists

  // ---------------------------------------------------------------------
  // Star rating

  /** A rating property as the card receives it from JSON. */
  datatype Rating = Undefined | JsNull | Number(x: real)

  /** What `StarRating` draws: "N/A", or the three runs of stars. */
  datatype StarDisplay = NotAvailable | Stars(full: nat, half: bool, empty: nat)

  /** `[...Array(n)]` with a negative length throws. */
  datatype RenderError = RangeError

  /** `x % 1` in JavaScript: the fraction after truncation toward zero,
      negative for a negative number. */
  function JsFrac(x: real): (r: real)
    ensures x >= 0.0 ==> r == x - x.Floor as real && 0.0 <= r < 1.0
    ensures x < 0.0 ==> -1.0 < r <= 0.0
    ensures (x - r).Floor as real == x - r
  {
    x - TruncToInt(x) as real
  }

  /** The star counts of a number, before the arrays are built. */
  function FullStars(x: real): int {
    x.Floor
  }

  predicate HalfStar(x: real) {
    JsFrac(x) >= 0.5
  }

  /** A non-negative rating has a half star exactly when it is at least
      half a star above its whole stars; a negative one never has. */
  lemma HalfStarRule(x: real)
    ensures x >= 0.0 ==> (HalfStar(x) <==> x - x.Floor as real >= 0.5)
    ensures x < 0.0 ==> !HalfStar(x)
  {
  }

  function EmptyStars(x: real): int {
    5 - FullStars(x) - (if HalfStar(x) then 1 else 0)
  }

  /** `StarRating`: an undefined rating shows "N/A"; null counts as 0; a
      number draws `floor(x)` full stars, a half star when its fraction is
      at least one half, and the rest of five empty, and throws when either
      run would be negative. */
  function StarRating(rating: Rating): (r: Result<StarDisplay, RenderError>)
    ensures rating == Undefined <==> r == Ok(NotAvailable)
    ensures rating == JsNull ==> r == Ok(Stars(0, false, 5))
    ensures rating.Number? ==> (r.Ok? <==> 0.0 <= rating.x < 5.5)
    ensures r.Ok? && r.value.Stars? ==> r.value.full + (if r.value.half then 1 else 0) + r.value.empty == 5
    ensures rating.Number? && r.Ok? ==>
              r.value.full as real <= rating.x < r.value.full as real + 1.0
              && (r.value.half <==> rating.x - r.value.full as real >= 0.5)
  {
    match rating
    case Undefined => Ok(NotAvailable)
    case JsNull => StarsOf(0.0)
    case Number(x) => StarsOf(x)
  }

  function StarsOf(x: real): (r: Result<StarDisplay, RenderError>)
    ensures r.Ok? <==> 0.0 <= x < 5.5
    ensures r.Ok? ==> r.value == Stars(FullStars(x), HalfStar(x), EmptyStars(x))
  {
    if FullStars(x) < 0 || EmptyStars(x) < 0 then Err(RangeError)
    else Ok(Stars(FullStars(x), HalfStar(x), EmptyStars(x)))
  }

  /** Every rating on the backend's scale of 0 to 5 is drawn. */
  lemma RatingScaleDrawn(x: real)
    requires 0.0 <= x <= 5.0
    ensures StarRating(Number(x)).Ok? && StarRating(Number(x)).value.Stars?
  {
  }

  // ---------------------------------------------------------------------
  // Feedback

  /** A feedback item `[phrase, count, sentiment]`. */
  datatype Feedback = Feedback(phrase: string, count: real, sentiment: real)

  datatype Tone = Positive | Negative | Neutral

  /** The sentiment thresholds shared by `getFeedbackClass` and
      `getFeedbackIcon`. */
  function ToneOf(sentiment: real): (t: Tone)
    ensures t == Positive <==> sentiment > 0.15
    ensures t == Negative <==> sentiment < -0.15
    ensures t == Neutral <==> -0.15 <= sentiment <= 0.15
  {
    if sentiment > 0.15 then Positive
    else if sentiment < -0.15 then Negative
    else Neutral
  }

  /** `getFeedbackClass`: green for a positive tone, red for a negative
      one, blue otherwise. */
  function FeedbackClass(sentiment: real): (r: string)
    ensures ToneOf(sentiment) == Positive ==> r == "bg-green-100 text-green-800"
    ensures ToneOf(sentiment) == Negative ==> r == "bg-red-100 text-red-700"
    ensures ToneOf(sentiment) == Neutral ==> r == "bg-blue-100 text-blue-700"
  {
    if sentiment > 0.15 then "bg-green-100 text-green-800"
    else if sentiment < -0.15 then "bg-red-100 text-red-700"
    else "bg-blue-100 text-blue-700"
  }

  /** The two strings `getFeedbackIcon` returns as the file is written:
      the emoji's UTF-8 bytes read back as Windows-1254 text, where the
      last byte of the thumbs (0x8D, 0x8E) has no character and is lost. */
  const GarbledThumb := "\U{11F}\U{178}\U{2018}"
  const GarbledFace := "\U{11F}\U{178}\U{2DC}"

  /** `getFeedbackIcon` as written: one and the same garbled thumb for a
      positive and for a negative tone, a garbled face otherwise. */
  function FeedbackIcon(sentiment: real): (r: string)
    ensures ToneOf(sentiment) != Neutral ==> r == GarbledThumb
    ensures ToneOf(sentiment) == Neutral ==> r == GarbledFace
  {
    if sentiment > 0.15 then GarbledThumb
    else if sentiment < -0.15 then GarbledThumb
    else GarbledFace
  }

  /** As written, the icon cannot tell a positive chip from a negative
      one: any two such sentiments get the same icon, while their colours
      differ. */
  lemma IconsCollide(up: real, down: real)
    requires ToneOf(up) == Positive && ToneOf(down) == Negative
    ensures FeedbackIcon(up) == FeedbackIcon(down)
    ensures FeedbackClass(up) != FeedbackClass(down)
  {
  }

  /** `getFeedbackIcon` as evidently intended: thumbs up for a positive
      tone, thumbs down for a negative one, a neutral face otherwise. */
  function IntendedIcon(sentiment: real): (r: string)
    ensures ToneOf(sentiment) == Positive ==> r == "\U{1F44D}"
    ensures ToneOf(sentiment) == Negative ==> r == "\U{1F44E}"
    ensures ToneOf(sentiment) == Neutral ==> r == "\U{1F610}"
  {
    match ToneOf(sentiment)
    case Positive => "\U{1F44D}"
    case Negative => "\U{1F44E}"
    case Neutral => "\U{1F610}"
  }

  /** With the intended icons, the chip's colour and its emoji always tell
      the same tone, so each tells the tone apart from the other two. */
  lemma ClassAndIconAgree(sentiment: real)
    ensures FeedbackClass(sentiment) == "bg-green-100 text-green-800" <==> ToneOf(sentiment) == Positive
    ensures IntendedIcon(sentiment) == "\U{1F44D}" <==> ToneOf(sentiment) == Positive
    ensures FeedbackClass(sentiment) == "bg-red-100 text-red-700" <==> ToneOf(sentiment) == Negative
    ensures IntendedIcon(sentiment) == "\U{1F44E}" <==> ToneOf(sentiment) == Negative
    ensures FeedbackClass(sentiment) == "bg-blue-100 text-blue-700" <==> ToneOf(sentiment) == Neutral
    ensures IntendedIcon(sentiment) == "\U{1F610}" <==> ToneOf(sentiment) == Neutral
  {
  }

  /** The intended icons of two sentiments are equal exactly when their
      tones are. */
  lemma IntendedIconsDistinguish(s: real, t: real)
    ensures IntendedIcon(s) == IntendedIcon(t) <==> ToneOf(s) == ToneOf(t)
  {
    ClassAndIconAgree(s);
    ClassAndIconAgree(t);
  }

  function Repeated(): Feedback -> bool {
    (f: Feedback) => f.count >= 2.0
  }

  /** `filteredFeedback`: the items mentioned at least twice, in their
      order, at most the first three; no feedback property gives none. */
  function FilteredFeedback(feedback: Option<seq<Feedback>>): (r: seq<Feedback>)
    ensures |r| <= 3
    ensures forall i :: 0 <= i < |r| ==> r[i].count >= 2.0
    ensures feedback.None? ==> r == []
    ensures feedback.Some? ==>
              r <= Filter(feedback.value, Repeated())
              && |r| == if |Filter(feedback.value, Repeated())| < 3 then |Filter(feedback.value, Repeated())| else 3
  {
    SlicePrefix(Filter(feedback.GetOr([]), Repeated()), 3)
  }

  /** The popover button is shown exactly when some item is mentioned at
      least twice. */
  lemma PopoverShown(feedback: seq<Feedback>)
    ensures |FilteredFeedback(Some(feedback))| > 0 <==> exists i :: 0 <= i < |feedback| && feedback[i].count >= 2.0
  {
    if |FilteredFeedback(Some(feedback))| == 0 {
      FilterEmpty(feedback, Repeated());
    } else {
      var r := FilteredFeedback(Some(feedback));
      assert r[0] in feedback;
    }
  }
}
